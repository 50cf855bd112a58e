/**
 The pushed-control protocol, both ends: the bridge with its connections, event logs and command
 executor, and the handheld with its link state machine and event cursor. Every transition of
 either end, and of the network between them, is one step of the machine below.

 Each connection carries two reliable streams of frames. Whatever part of a stream has not been
 read when a side gives the connection up is lost; a frame cut short by that is never seen.
 */
module PushProtocol {
  import opened Options
  import opened CommandRegistry
  import Fake = FakeAgent
  import Exec = CommandExecutor

  type SessionId = string

  // -------------------------------------------------------------- frames ---

  /** Which of the two patterns that the handheld searches for occurs in the text of an event frame. */
  datatype Look = Plain | LooksReady | LooksError

  datatype Payload = Payload(content: string, look: Look)

  /** From bridge to handheld. */
  datatype Frame =
    | ReadyFrame
    | EventFrame(sequence: nat, payload: Payload)
    | AckFrame(commandId: CommandId)
    | ErrorFrame
    | PongFrame
    | ResyncFrame(lastSequence: nat, snapshot: Fake.Snapshot)

  /** From handheld to bridge. */
  datatype Request =
    | Hello(session: SessionId, after: nat)
    | Ping
    | Command(id: CommandId, text: string)

  function LookOf(frame: Frame): Look {
    match frame
    case ReadyFrame => LooksReady
    case EventFrame(_, payload) => payload.look
    case ErrorFrame => LooksError
    case _ => Plain
  }

  // -------------------------------------------------------------- bridge ---

  /** What a connection still owes its peer for a command: nothing, a stored answer, or the result of an action. */
  datatype Busy = Idle | Answering(ack: Ack) | Waiting(op: nat)

  /**
   One accepted connection. out is everything written to the socket and inbox everything the
   handheld sent. target, after and base record the hello the handheld built for it and how long
   that session's log was at the time; the bridge itself never looks at those three.
   */
  datatype Conn = Conn(
    session: Option<SessionId>,
    sendCursor: nat,
    blocked: bool,
    ended: bool,
    closed: bool,
    busy: Busy,
    out: seq<Frame>,
    inbox: seq<Request>,
    processed: nat,
    target: SessionId,
    after: nat,
    base: nat)

  /**
   logs holds every event ever appended; evicted how many of them are no longer retained; summaries
   what each session's agent reports of it when asked.
   */
  datatype Bridge = Bridge(
    logs: map<SessionId, seq<Payload>>,
    evicted: map<SessionId, nat>,
    summaries: map<SessionId, Fake.Snapshot>,
    exec: Exec.Executor,
    conns: seq<Conn>)

  function Log(b: Bridge, session: SessionId): seq<Payload> {
    if session in b.logs then b.logs[session] else []
  }

  function Evicted(b: Bridge, session: SessionId): nat {
    if session in b.evicted then b.evicted[session] else 0
  }

  function Summary(b: Bridge, session: SessionId): Fake.Snapshot {
    if session in b.summaries then b.summaries[session] else Fake.Snapshot(Fake.Idle, None)
  }

  /** The event store refuses a cursor ahead of the log or before the retained window. */
  predicate CursorRefused(b: Bridge, session: SessionId, cursor: nat) {
    cursor > |Log(b, session)| || cursor < Evicted(b, session)
  }

  /** Writing one frame: destroys a connection that is still backpressured, and is lost after end(). */
  function Send(c: Conn, frame: Frame, writable: bool): Conn {
    if c.closed then c
    else if c.blocked then c.(closed := true)
    else if c.ended then c.(blocked := true)
    else c.(out := c.out + [frame], blocked := !writable)
  }

  function SendResync(b: Bridge, c: Conn, session: SessionId, writable: bool): Conn {
    Send(c, ResyncFrame(|Log(b, session)|, Summary(b, session)), writable).(ended := true)
  }

  function HandleHello(b: Bridge, c: Conn, session: SessionId, after: nat, writable: bool): Conn {
    if c.session.Some? then Send(c, ErrorFrame, writable)
    else if session !in b.logs then Send(c, ErrorFrame, writable).(ended := true)
    else
      var subscribed := c.(session := Some(session), sendCursor := after);
      if CursorRefused(b, session, after) then SendResync(b, subscribed, session, writable)
      else Send(subscribed, ReadyFrame, writable)
  }

  function HandlePing(c: Conn, writable: bool): Conn {
    Send(c, if c.session.None? then ErrorFrame else PongFrame, writable)
  }

  /** A command is refused while another one of this connection is being processed. */
  ghost function HandleCommand(exec: Exec.Executor, c: Conn, id: CommandId, writable: bool): (r: (Exec.Executor, Conn)) {
    if c.busy != Idle || c.session.None? then (exec, Send(c, ErrorFrame, writable)) else
    var (exec', outcome) := Exec.Begin(exec, c.session.value, id);
    (exec', c.(busy := match outcome
                       case Cached(ack) => Answering(ack)
                       case Joined(op) => Waiting(op)
                       case Started(op) => Waiting(op)))
  }

  /** One turn of the event flush: the next event, a resync if the cursor is refused, or nothing. */
  function FlushOne(b: Bridge, c: Conn, writable: bool): Conn {
    if c.closed || c.blocked || c.session.None? then c
    else if CursorRefused(b, c.session.value, c.sendCursor) then SendResync(b, c, c.session.value, writable)
    else if c.sendCursor == |Log(b, c.session.value)| then c
    else
      Send(c, EventFrame(c.sendCursor + 1, Log(b, c.session.value)[c.sendCursor]), writable)
        .(sendCursor := c.sendCursor + 1)
  }

  predicate CanReply(exec: Exec.Executor, c: Conn) {
    match c.busy
    case Idle => false
    case Answering(_) => true
    case Waiting(op) => op < |exec.ops| && !exec.ops[op].state.Running?
  }

  function ReplyTo(exec: Exec.Executor, c: Conn, writable: bool): Conn
    requires CanReply(exec, c)
  {
    var frame := match c.busy
      case Answering(ack) => AckFrame(ack.commandId)
      case Waiting(op) =>
        if exec.ops[op].state.Succeeded? then AckFrame(exec.ops[op].state.ack.commandId) else ErrorFrame;
    Send(c, frame, writable).(busy := Idle)
  }

  // ------------------------------------------------------------ handheld ---

  datatype Phase = Stopped | Retrying | Connecting | SendingHello | WaitingReady | IsReady

  datatype Pending = Pending(id: CommandId, text: string)

  /** What the user's view of a task is made of. */
  datatype Applied = AppliedEvent(sequence: nat, payload: Payload) | AppliedResync(lastSequence: nat, snapshot: Fake.Snapshot)

  /**
   link, cursor, output, held, pending and sent are the fields of the push link; conn and received
   say which connection its socket is and how many frames it has taken from it. view, eventCursor
   and applied belong to the session on screen. crossed records that the pending command was queued
   while another frame was still being sent.
   */
  datatype Handheld = Handheld(
    phase: Phase,
    link: SessionId,
    cursor: nat,
    output: Option<Request>,
    held: Option<Frame>,
    pending: Option<Pending>,
    sent: bool,
    conn: Option<nat>,
    received: nat,
    view: SessionId,
    eventCursor: nat,
    applied: seq<Applied>,
    crossed: bool)

  /** network_push_stop */
  function StopLink(h: Handheld): Handheld {
    h.(phase := Stopped, link := "", cursor := 0, output := None, held := None, pending := None, sent := false,
       conn := None, received := 0, crossed := false)
  }

  /** network_push_start */
  function StartLink(h: Handheld, session: SessionId, after: nat): Handheld {
    StopLink(h).(phase := Retrying, link := session, cursor := after)
  }

  /** push_schedule_reconnect: the frame already extracted and the pending command survive. */
  function DropLink(h: Handheld): Handheld {
    h.(phase := Retrying, output := None, sent := false, conn := None, received := 0, crossed := false)
  }

  /** The output buffer has been sent to its last byte. */
  function OutputDrained(h: Handheld): Handheld {
    if h.phase == SendingHello then h.(output := None, phase := WaitingReady)
    else h.(output := None, sent := h.sent || h.pending.Some?)
  }

  /** push_extract_frame, given the next complete frame. */
  function ExtractFrame(h: Handheld, frame: Frame): Handheld {
    var taken := h.(held := Some(frame), received := h.received + 1);
    match LookOf(frame)
    case LooksReady => taken.(phase := IsReady)
    case LooksError =>
      if h.phase == IsReady && h.sent then taken.(pending := None, sent := false, crossed := false) else taken
    case Plain => taken
  }

  /** handle_protocol_event */
  function ApplyEvent(h: Handheld, sequence: nat, payload: Payload): Handheld {
    if sequence <= h.eventCursor then h
    else h.(eventCursor := sequence, cursor := sequence, applied := h.applied + [AppliedEvent(sequence, payload)])
  }

  /** apply_session_snapshot */
  function ApplyResync(h: Handheld, lastSequence: nat, snapshot: Fake.Snapshot): Handheld {
    h.(eventCursor := lastSequence, cursor := lastSequence, applied := h.applied + [AppliedResync(lastSequence, snapshot)])
  }

  /** network_push_acknowledge */
  function Acknowledge(h: Handheld, id: CommandId): Handheld {
    if h.pending.Some? && h.pending.value.id == id then h.(pending := None, sent := false, crossed := false) else h
  }

  /** handle_push_frame followed by network_push_consume_frame. */
  function ConsumeFrame(h: Handheld): Handheld
    requires h.held.Some?
  {
    var handled := match h.held.value
      case EventFrame(sequence, payload) => ApplyEvent(h, sequence, payload)
      case AckFrame(id) => Acknowledge(h, id)
      case ResyncFrame(lastSequence, snapshot) => ApplyResync(h, lastSequence, snapshot)
      case _ => h;
    handled.(held := None)
  }

  // --------------------------------------------------------------- world ---

  /** issued holds every command the handheld ever queued. */
  datatype World = World(bridge: Bridge, handheld: Handheld, issued: map<CommandId, string>)

  function NewConn(h: Handheld, base: nat): Conn {
    Conn(None, 0, false, false, false, Idle, [], [], 0, h.link, h.cursor, base)
  }

  function Start(capacity: nat, view: SessionId): World {
    World(Bridge(map[], map[], map[], Exec.Initial(capacity), []),
          Handheld(Stopped, "", 0, None, None, None, false, None, 0, view, 0, [], false),
          map[])
  }

  datatype Step =
    // the bridge
    | NewSession(session: SessionId)
    | Append(session: SessionId, payload: Payload, evicted: nat)
    | Report(session: SessionId, snapshot: Fake.Snapshot)
    | Receive(conn: nat, writable: bool)
    | Flush(conn: nat, writable: bool)
    | Writable(conn: nat)
    | CloseConn(conn: nat)
    | Reply(conn: nat, writable: bool)
    | Execute(step: Exec.Step)
    // the handheld
    | BeginConnect
    | Connected
    | Drain
    | OfferCommand
    | OfferPing
    | Extract
    | Consume
    | Drop
    | Queue(id: CommandId, text: string)
    | Stop
    | Attach(session: SessionId)
    | Restart

  /** The handheld's command IDs are its own: never issued, executed or remembered before. */
  ghost predicate IsFreshId(w: World, id: CommandId) {
    && id !in w.issued
    && id !in w.bridge.exec.history
    && forall k :: 0 <= k < |w.bridge.exec.ops| ==> w.bridge.exec.ops[k].commandId != id
  }

  /** Uploads use IDs of their own as well. */
  ghost predicate ExecAllowed(w: World, step: Exec.Step) {
    Exec.Enabled(w.bridge.exec, step) && (step.UploadStep? ==> step.ack.commandId !in w.issued)
  }

  ghost predicate Enabled(w: World, step: Step) {
    var b, h := w.bridge, w.handheld;
    match step
    case NewSession(session) => session !in b.logs
    case Append(session, _, evicted) => session in b.logs && Evicted(b, session) <= evicted <= |Log(b, session)|
    case Report(session, _) => session in b.logs
    case Receive(i, _) => i < |b.conns| && !b.conns[i].closed && b.conns[i].processed < |b.conns[i].inbox|
    case Flush(i, _) => i < |b.conns|
    case Writable(i) => i < |b.conns|
    case CloseConn(i) => i < |b.conns|
    case Reply(i, _) => i < |b.conns| && CanReply(b.exec, b.conns[i])
    case Execute(step) => ExecAllowed(w, step)
    case BeginConnect => h.phase == Retrying
    case Connected => h.phase == Connecting
    case Drain => h.output.Some? && h.conn.Some? && h.conn.value < |b.conns|
    case OfferCommand => h.phase == IsReady && h.output.None? && h.pending.Some? && !h.sent
    case OfferPing => h.phase == IsReady && h.output.None? && !(h.pending.Some? && !h.sent)
    case Extract =>
      && h.phase in {WaitingReady, IsReady} && h.held.None?
      && h.conn.Some? && h.conn.value < |b.conns| && h.received < |b.conns[h.conn.value].out|
    case Consume => h.held.Some?
    case Drop => h.phase !in {Stopped, Retrying}
    case Queue(id, _) => h.phase != Stopped && h.pending.None? && IsFreshId(w, id)
    case Stop => true
    case Attach(_) => true
    case Restart => true
  }

  ghost function SetConn(b: Bridge, i: nat, c: Conn): Bridge
    requires i < |b.conns|
  {
    b.(conns := b.conns[i := c])
  }

  /** The bridge takes the next request of a connection. */
  ghost function ReceiveOn(b: Bridge, i: nat, writable: bool): Bridge
    requires i < |b.conns| && b.conns[i].processed < |b.conns[i].inbox|
  {
    var c := b.conns[i].(processed := b.conns[i].processed + 1);
    match b.conns[i].inbox[b.conns[i].processed]
    case Hello(session, after) => SetConn(b, i, HandleHello(b, c, session, after, writable))
    case Ping => SetConn(b, i, HandlePing(c, writable))
    case Command(id, _) =>
      var (exec, c') := HandleCommand(b.exec, c, id, writable);
      SetConn(b, i, c').(exec := exec)
  }

  ghost function AppendTo(b: Bridge, session: SessionId, payload: Payload, evicted: nat): Bridge {
    b.(logs := b.logs[session := Log(b, session) + [payload]], evicted := b.evicted[session := evicted])
  }

  ghost function Apply(w: World, step: Step): World
    requires Enabled(w, step)
  {
    var b, h := w.bridge, w.handheld;
    match step
    case NewSession(session) => w.(bridge := b.(logs := b.logs[session := []], evicted := b.evicted[session := 0]))
    case Append(session, payload, evicted) => w.(bridge := AppendTo(b, session, payload, evicted))
    case Report(session, snapshot) => w.(bridge := b.(summaries := b.summaries[session := snapshot]))
    case Receive(i, writable) => w.(bridge := ReceiveOn(b, i, writable))
    case Flush(i, writable) => w.(bridge := SetConn(b, i, FlushOne(b, b.conns[i], writable)))
    case Writable(i) => w.(bridge := SetConn(b, i, b.conns[i].(blocked := false)))
    case CloseConn(i) => w.(bridge := SetConn(b, i, b.conns[i].(closed := true)))
    case Reply(i, writable) => w.(bridge := SetConn(b, i, ReplyTo(b.exec, b.conns[i], writable)))
    case Execute(step) => w.(bridge := b.(exec := Exec.Apply(b.exec, step)))
    case BeginConnect => w.(handheld := h.(phase := Connecting))
    case Connected =>
      w.(bridge := b.(conns := b.conns + [NewConn(h, |Log(b, h.link)|)]),
         handheld := h.(phase := SendingHello, conn := Some(|b.conns|), received := 0,
                        output := Some(Hello(h.link, h.cursor))))
    case Drain =>
      var i := h.conn.value;
      w.(bridge := SetConn(b, i, b.conns[i].(inbox := b.conns[i].inbox + [h.output.value])),
         handheld := OutputDrained(h))
    case OfferCommand => w.(handheld := h.(output := Some(Command(h.pending.value.id, h.pending.value.text))))
    case OfferPing => w.(handheld := h.(output := Some(Ping)))
    case Extract => w.(handheld := ExtractFrame(h, b.conns[h.conn.value].out[h.received]))
    case Consume => w.(handheld := ConsumeFrame(h))
    case Drop => w.(handheld := DropLink(h))
    case Queue(id, text) =>
      w.(handheld := h.(pending := Some(Pending(id, text)), sent := false,
                        crossed := h.phase == IsReady && h.output.Some?),
         issued := w.issued[id := text])
    case Stop => w.(handheld := StopLink(h))
    case Attach(session) => w.(handheld := StartLink(h.(view := session, eventCursor := 0, applied := []), session, 0))
    case Restart => w.(handheld := StartLink(h, h.view, h.eventCursor))
  }

  /** A run from one world to another: each step enabled when it is taken. */
  ghost predicate Reaches(w: World, steps: seq<Step>, z: World)
    decreases |steps|
  {
    if steps == [] then w == z
    else Enabled(w, steps[0]) && Reaches(Apply(w, steps[0]), steps[1..], z)
  }

  ghost predicate Reachable(capacity: nat, view: SessionId, z: World) {
    exists steps :: Reaches(Start(capacity, view), steps, z)
  }

  /** Two runs, one after the other, are a run. */
  lemma {:induction false} ReachesOn(w: World, first: seq<Step>, m: World, second: seq<Step>, z: World)
    requires Reaches(w, first, m) && Reaches(m, second, z)
    ensures Reaches(w, first + second, z)
    decreases |first|
  {
    hide Enabled, Apply;
    if first == [] {
      assert first + second == second;
    } else {
      assert (first + second)[1..] == first[1..] + second;
      ReachesOn(Apply(w, first[0]), first[1..], m, second, z);
    }
  }
}

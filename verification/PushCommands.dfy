/**
 Commands over every run of the push protocol: what stays with a queued command, how often it
 reaches a connection, what its acknowledgement means.
 */
module PushCommands {
  import opened Options
  import opened CommandRegistry
  import opened PushProtocol
  import Exec = CommandExecutor
  import PushDelivery

  // ----------------------------------------------------- the invariant ---

  ghost predicate Carries(inbox: seq<Request>, id: CommandId) {
    exists k :: 0 <= k < |inbox| && inbox[k].Command? && inbox[k].id == id
  }

  ghost predicate IssuedAs(w: World, id: CommandId, text: string) {
    id in w.issued && w.issued[id] == text
  }

  /** An action for this command has succeeded. */
  ghost predicate Done(x: Exec.Executor, id: CommandId) {
    exists k :: 0 <= k < |x.ops| && x.ops[k].commandId == id && x.ops[k].state.Succeeded?
  }

  /** Each command arrives as it was issued, and at most once per connection. */
  ghost predicate InboxOk(w: World, inbox: seq<Request>) {
    && (forall k :: 0 <= k < |inbox| && inbox[k].Command? ==> IssuedAs(w, inbox[k].id, inbox[k].text))
    && (forall k, l :: 0 <= k < l < |inbox| && inbox[k].Command? && inbox[l].Command? ==> inbox[k].id != inbox[l].id)
  }

  /** Every answer given or owed is for a command that is done or being done. */
  ghost predicate AnswersOk(x: Exec.Executor, c: Conn) {
    && (forall k :: 0 <= k < |c.out| && c.out[k].AckFrame? ==> Done(x, c.out[k].commandId))
    && match c.busy
       case Idle => true
       case Answering(ack) => Done(x, ack.commandId)
       case Waiting(op) => op < |x.ops|
  }

  /** The handheld's side of the pending command. */
  ghost predicate PendingOk(w: World) {
    var b, h := w.bridge, w.handheld;
    && (h.pending.Some? ==> IssuedAs(w, h.pending.value.id, h.pending.value.text))
    && (h.sent ==> h.pending.Some? && h.phase == IsReady)
    && (h.crossed ==> h.pending.Some? && h.phase == IsReady)
    && (h.sent && h.output.Some? ==> !h.output.value.Command?)
    && (h.conn.Some? ==> h.conn.value < |b.conns|)
    && (h.output.Some? && h.output.value.Command? ==>
         && IssuedAs(w, h.output.value.id, h.output.value.text)
         && h.conn.Some? && !Carries(b.conns[h.conn.value].inbox, h.output.value.id))
    && (h.pending.Some? && h.conn.Some? && !h.sent ==> !Carries(b.conns[h.conn.value].inbox, h.pending.value.id))
    && (h.pending.Some? && h.phase == IsReady && !h.sent && h.crossed ==>
         h.output.Some? && (h.output.value.Command? ==> h.output.value.id != h.pending.value.id))
    && (h.pending.Some? && h.phase == IsReady && !h.sent && !h.crossed && h.output.Some? ==>
         h.output.value == Command(h.pending.value.id, h.pending.value.text))
    && (h.pending.Some? && h.conn.Some? && h.sent ==>
         (Carries(b.conns[h.conn.value].inbox, h.pending.value.id) <==> !h.crossed))
  }

  ghost predicate ExecOk(w: World) {
    && Exec.Inv(w.bridge.exec)
    && forall p :: 0 <= p < |w.bridge.exec.history| && w.bridge.exec.history[p] in w.issued ==>
         Done(w.bridge.exec, w.bridge.exec.history[p])
  }

  ghost predicate Inv(w: World) {
    && ExecOk(w)
    && (forall i :: 0 <= i < |w.bridge.conns| ==>
         InboxOk(w, w.bridge.conns[i].inbox) && AnswersOk(w.bridge.exec, w.bridge.conns[i]))
    && (w.handheld.held.Some? && w.handheld.held.value.AckFrame? ==> Done(w.bridge.exec, w.handheld.held.value.commandId))
    && PendingOk(w)
  }

  lemma StartInv(capacity: nat, view: SessionId)
    requires capacity > 0
    ensures Inv(Start(capacity, view))
  {
    Exec.InitialInv(capacity);
  }

  // --------------------------------------------------- the bridge's steps ---

  /** A step of the executor alone: what was done stays done. */
  ghost predicate ExecGrows(x: Exec.Executor, y: Exec.Executor) {
    && |x.ops| <= |y.ops|
    && forall id :: Done(x, id) ==> Done(y, id)
  }

  lemma ExecStepGrows(x: Exec.Executor, step: Exec.Step)
    requires Exec.Enabled(x, step)
    ensures ExecGrows(x, Exec.Apply(x, step))
  {
    hide Exec.Apply;
    Exec.HistoryGrows(x, step);
    var y := Exec.Apply(x, step);
    forall id | Done(x, id)
      ensures Done(y, id)
    {
      var k :| 0 <= k < |x.ops| && x.ops[k].commandId == id && x.ops[k].state.Succeeded?;
      assert y.ops[k] == x.ops[k];
    }
  }

  lemma AnswersStay(x: Exec.Executor, y: Exec.Executor, c: Conn)
    requires AnswersOk(x, c) && ExecGrows(x, y)
    ensures AnswersOk(y, c)
  {
  }

  lemma ExecStepKeepsHistory(w: World, step: Exec.Step)
    requires ExecOk(w) && ExecAllowed(w, step)
    ensures ExecOk(w.(bridge := w.bridge.(exec := Exec.Apply(w.bridge.exec, step))))
  {
    hide Exec.Inv, Holds, Remembered;
    var x := w.bridge.exec;
    var y := Exec.Apply(x, step);
    Exec.StepKeepsInv(x, step);
    ExecStepGrows(x, step);
    forall p | 0 <= p < |y.history| && y.history[p] in w.issued
      ensures Done(y, y.history[p])
    {
      if p < |x.history| {
        assert Done(x, x.history[p]);
      } else if step.SucceedStep? {
        assert y.ops[step.op].state.Succeeded?;
      }
    }
  }

  lemma ExecuteKeepsInv(w: World, step: Exec.Step)
    requires Inv(w) && Enabled(w, Execute(step))
    ensures Inv(Apply(w, Execute(step)))
  {
    hide Exec.Apply, ExecOk, ExecGrows, AnswersOk;
    ExecStepKeepsHistory(w, step);
    ExecStepGrows(w.bridge.exec, step);
    var z := Apply(w, Execute(step));
    forall i | 0 <= i < |z.bridge.conns|
      ensures AnswersOk(z.bridge.exec, z.bridge.conns[i])
    {
      AnswersStay(w.bridge.exec, z.bridge.exec, w.bridge.conns[i]);
    }
    DoneStays(w.bridge.exec, z.bridge.exec);
  }

  lemma DoneStays(x: Exec.Executor, y: Exec.Executor)
    requires ExecGrows(x, y)
    ensures forall id :: Done(x, id) ==> Done(y, id)
  {
  }

  lemma SendAnswers(x: Exec.Executor, c: Conn, frame: Frame, writable: bool)
    requires AnswersOk(x, c) && (frame.AckFrame? ==> Done(x, frame.commandId))
    ensures AnswersOk(x, Send(c, frame, writable)) && Send(c, frame, writable).inbox == c.inbox
    ensures Send(c, frame, writable).busy == c.busy
  {
    hide Done;
  }

  /** The bridge changed one connection, and perhaps its executor, but no inbox. */
  lemma BridgeStepKeepsInv(w: World, i: nat, b': Bridge)
    requires Inv(w) && i < |w.bridge.conns| == |b'.conns|
    requires forall j :: 0 <= j < |b'.conns| && j != i ==> b'.conns[j] == w.bridge.conns[j]
    requires b'.conns[i].inbox == w.bridge.conns[i].inbox
    requires ExecGrows(w.bridge.exec, b'.exec) && ExecOk(w.(bridge := b'))
    requires AnswersOk(b'.exec, b'.conns[i])
    ensures Inv(w.(bridge := b'))
  {
    hide ExecOk, ExecGrows, AnswersOk, Carries, Done;
    var z := w.(bridge := b');
    forall j | 0 <= j < |b'.conns|
      ensures InboxOk(z, b'.conns[j].inbox) && AnswersOk(b'.exec, b'.conns[j])
    {
      assert InboxOk(w, w.bridge.conns[j].inbox);
      AnswersStay(w.bridge.exec, b'.exec, w.bridge.conns[j]);
    }
    DoneStays(w.bridge.exec, b'.exec);
    assert forall j :: 0 <= j < |b'.conns| ==> b'.conns[j].inbox == w.bridge.conns[j].inbox;
  }

  lemma SameExecGrows(x: Exec.Executor)
    ensures ExecGrows(x, x)
  {
  }

  lemma CachedIsDone(w: World, id: CommandId)
    requires ExecOk(w) && id in w.issued && Find(w.bridge.exec.registry, id).Some?
    ensures Done(w.bridge.exec, id)
  {
    hide Exec.InFlightIsRight, Exec.SuccessIsRemembered, Exec.RestartIsLate, Done;
    var x := w.bridge.exec;
    var i :| 0 <= i < |x.registry| && x.registry[i].commandId == id;
    assert x.history[|x.history| - |x.registry| + i] == id;
  }

  lemma CommandKeepsAnswers(w: World, c: Conn, id: CommandId, writable: bool)
    requires ExecOk(w) && AnswersOk(w.bridge.exec, c) && id in w.issued
    ensures var (x, d) := HandleCommand(w.bridge.exec, c, id, writable);
      && ExecGrows(w.bridge.exec, x) && ExecOk(w.(bridge := w.bridge.(exec := x)))
      && AnswersOk(x, d) && d.inbox == c.inbox
  {
    hide Done, ExecGrows, Send, Exec.RegistryIsWindow, Exec.SuccessIsRemembered, Exec.RestartIsLate;
    var x := w.bridge.exec;
    if c.busy != Idle || c.session.None? {
      SameExecGrows(x);
      SendAnswers(x, c, ErrorFrame, writable);
      assert w.(bridge := w.bridge.(exec := x)) == w;
    } else {
      var step := Exec.BeginStep(c.session.value, id);
      ExecStepGrows(x, step);
      ExecStepKeepsHistory(w, step);
      AnswersStay(x, Exec.Apply(x, step), c);
      if Find(x.registry, id).Some? {
        CachedIsDone(w, id);
      }
    }
  }

  lemma RequestKeepsAnswers(w: World, i: nat, writable: bool)
    requires Inv(w) && Enabled(w, Receive(i, writable))
    ensures var b, b' := w.bridge, ReceiveOn(w.bridge, i, writable);
      && |b'.conns| == |b.conns| && (forall j :: 0 <= j < |b.conns| && j != i ==> b'.conns[j] == b.conns[j])
      && ExecGrows(b.exec, b'.exec) && ExecOk(w.(bridge := b'))
      && AnswersOk(b'.exec, b'.conns[i]) && b'.conns[i].inbox == b.conns[i].inbox
  {
    hide Done, ExecGrows, Exec.Inv, Send, HandleCommand, AnswersOk, PendingOk;
    var b := w.bridge;
    var c := b.conns[i].(processed := b.conns[i].processed + 1);
    assert AnswersOk(b.exec, c) by { TakingKeepsAnswers(b.exec, b.conns[i]); }
    SameExecGrows(b.exec);
    match b.conns[i].inbox[b.conns[i].processed]
    case Hello(session, after) => HelloKeepsAnswers(b, c, session, after, writable);
    case Ping => SendAnswers(b.exec, c, if c.session.None? then ErrorFrame else PongFrame, writable);
    case Command(id, text) =>
      assert InboxOk(w, b.conns[i].inbox);
      CommandKeepsAnswers(w, c, id, writable);
  }

  lemma TakingKeepsAnswers(x: Exec.Executor, c: Conn)
    requires AnswersOk(x, c)
    ensures AnswersOk(x, c.(processed := c.processed + 1))
  {
    hide Done;
  }

  lemma HelloKeepsAnswers(b: Bridge, c: Conn, session: SessionId, after: nat, writable: bool)
    requires AnswersOk(b.exec, c)
    ensures var d := HandleHello(b, c, session, after, writable);
      AnswersOk(b.exec, d) && d.inbox == c.inbox
  {
    hide Done, CursorRefused;
    var subscribed := c.(session := Some(session), sendCursor := after);
    SendAnswers(b.exec, c, ErrorFrame, writable);
    SendAnswers(b.exec, subscribed, ReadyFrame, writable);
    SendAnswers(b.exec, subscribed, ResyncFrame(|Log(b, session)|, Summary(b, session)), writable);
  }

  lemma FlushKeepsAnswers(b: Bridge, c: Conn, writable: bool)
    requires AnswersOk(b.exec, c)
    ensures AnswersOk(b.exec, FlushOne(b, c, writable)) && FlushOne(b, c, writable).inbox == c.inbox
  {
    hide Done, CursorRefused;
  }

  lemma ReplyKeepsAnswers(x: Exec.Executor, c: Conn, writable: bool)
    requires Exec.Inv(x) && AnswersOk(x, c) && CanReply(x, c)
    ensures AnswersOk(x, ReplyTo(x, c, writable)) && ReplyTo(x, c, writable).inbox == c.inbox
  {
    hide Exec.InFlightIsRight, Exec.RestartIsLate;
    if c.busy.Waiting? && x.ops[c.busy.op].state.Succeeded? {
      assert Exec.SuccessIsRemembered(x, c.busy.op);
    }
  }

  lemma ConnStepKeepsInv(w: World, step: Step)
    requires Inv(w) && Enabled(w, step)
    requires step.Receive? || step.Flush? || step.Writable? || step.CloseConn? || step.Reply?
    ensures Inv(Apply(w, step))
  {
    hide ExecGrows, PendingOk, ReceiveOn, FlushOne, ReplyTo, Exec.Inv, Done, InboxOk;
    var b, i := w.bridge, step.conn;
    var b' := Apply(w, step).bridge;
    SameExecGrows(b.exec);
    match step {
      case Receive(_, writable) => RequestKeepsAnswers(w, i, writable);
      case Flush(_, writable) => FlushKeepsAnswers(b, b.conns[i], writable);
      case Reply(_, writable) => ReplyKeepsAnswers(b.exec, b.conns[i], writable);
      case _ =>
    }
    BridgeStepKeepsInv(w, i, b');
  }

  // ------------------------------------------------- the handheld's steps ---

  lemma QuietBridgeKeepsInv(w: World, step: Step)
    requires Inv(w) && Enabled(w, step) && (step.NewSession? || step.Append? || step.Report?)
    ensures Inv(Apply(w, step))
  {
    hide Exec.Inv, Done, Carries;
    var z := Apply(w, step);
    forall i | 0 <= i < |z.bridge.conns|
      ensures InboxOk(z, z.bridge.conns[i].inbox) && AnswersOk(z.bridge.exec, z.bridge.conns[i])
    {
      assert InboxOk(w, w.bridge.conns[i].inbox);
    }
  }

  /** The handheld alone moved. */
  lemma HandheldStepKeepsInv(w: World, h': Handheld)
    requires Inv(w)
    requires PendingOk(w.(handheld := h'))
    requires h'.held.Some? && h'.held.value.AckFrame? ==> Done(w.bridge.exec, h'.held.value.commandId)
    ensures Inv(w.(handheld := h'))
  {
    hide Exec.Inv, Done, PendingOk;
    var z := w.(handheld := h');
    forall i | 0 <= i < |z.bridge.conns|
      ensures InboxOk(z, z.bridge.conns[i].inbox) && AnswersOk(z.bridge.exec, z.bridge.conns[i])
    {
      assert InboxOk(w, w.bridge.conns[i].inbox);
    }
  }

  lemma FreshIsNotCarried(w: World, inbox: seq<Request>, id: CommandId)
    requires InboxOk(w, inbox) && id !in w.issued
    ensures !Carries(inbox, id)
  {
  }

  lemma QueueKeepsPending(w: World, id: CommandId, text: string)
    requires Inv(w) && Enabled(w, Queue(id, text)) && PushDelivery.LinkOk(w.bridge, w.handheld)
    ensures PendingOk(Apply(w, Queue(id, text)))
  {
    hide Exec.Inv, Done, Carries, AnswersOk, InboxOk, PushDelivery.Pos, PushDelivery.Bound;
    var h := w.handheld;
    if h.conn.Some? {
      FreshIsNotCarried(w, w.bridge.conns[h.conn.value].inbox, id);
    }
  }

  lemma QueueKeepsInv(w: World, id: CommandId, text: string)
    requires Inv(w) && Enabled(w, Queue(id, text)) && PushDelivery.LinkOk(w.bridge, w.handheld)
    ensures Inv(Apply(w, Queue(id, text)))
  {
    hide Exec.Inv, Done, Carries, AnswersOk, PendingOk;
    var z := Apply(w, Queue(id, text));
    forall i | 0 <= i < |z.bridge.conns|
      ensures InboxOk(z, z.bridge.conns[i].inbox) && AnswersOk(z.bridge.exec, z.bridge.conns[i])
    {
      assert InboxOk(w, w.bridge.conns[i].inbox);
    }
    QueueKeepsPending(w, id, text);
  }

  lemma ConnectedKeepsInv(w: World)
    requires Inv(w) && Enabled(w, Connected) && PushDelivery.LinkOk(w.bridge, w.handheld)
    ensures Inv(Apply(w, Connected))
  {
    hide Exec.Inv, Done, PushDelivery.Pos, PushDelivery.Bound;
    var z := Apply(w, Connected);
    forall i | 0 <= i < |z.bridge.conns|
      ensures InboxOk(z, z.bridge.conns[i].inbox) && AnswersOk(z.bridge.exec, z.bridge.conns[i])
    {
      if i < |w.bridge.conns| {
        assert InboxOk(w, w.bridge.conns[i].inbox);
      }
    }
  }

  lemma CarriesPush(inbox: seq<Request>, request: Request, id: CommandId)
    ensures Carries(inbox + [request], id) <==> (Carries(inbox, id) || (request.Command? && request.id == id))
  {
    var longer := inbox + [request];
    if Carries(inbox, id) {
      var k :| 0 <= k < |inbox| && inbox[k].Command? && inbox[k].id == id;
      assert longer[k].Command?;
    }
    assert longer[|inbox|] == request;
  }

  lemma InboxPush(w: World, inbox: seq<Request>, request: Request)
    requires InboxOk(w, inbox)
    requires request.Command? ==> IssuedAs(w, request.id, request.text) && !Carries(inbox, request.id)
    ensures InboxOk(w, inbox + [request])
  {
  }

  lemma DrainKeepsPending(w: World)
    requires PendingOk(w) && Enabled(w, Drain) && PushDelivery.LinkOk(w.bridge, w.handheld)
    ensures PendingOk(Apply(w, Drain))
  {
    hide Carries, PushDelivery.Pos, PushDelivery.Bound;
    var h := w.handheld;
    if h.pending.Some? {
      var i, z := h.conn.value, Apply(w, Drain);
      CarriesPush(w.bridge.conns[i].inbox, h.output.value, h.pending.value.id);
      assert z.bridge.conns[i].inbox == w.bridge.conns[i].inbox + [h.output.value];
      assert h.phase == SendingHello || h.phase == IsReady;
    }
  }

  lemma DrainKeepsInv(w: World)
    requires Inv(w) && Enabled(w, Drain) && PushDelivery.LinkOk(w.bridge, w.handheld)
    ensures Inv(Apply(w, Drain))
  {
    hide Exec.Inv, Done, PushDelivery.LinkOk;
    DrainKeepsPending(w);
    var i := w.handheld.conn.value;
    hide Carries, InboxOk, IssuedAs;
    InboxPush(w, w.bridge.conns[i].inbox, w.handheld.output.value);
    hide PendingOk;
    DrainedInboxes(w);
  }

  lemma DrainedInboxes(w: World)
    requires Inv(w) && Enabled(w, Drain)
    requires InboxOk(w, w.bridge.conns[w.handheld.conn.value].inbox + [w.handheld.output.value])
    requires PendingOk(Apply(w, Drain))
    ensures Inv(Apply(w, Drain))
  {
    hide Exec.Inv, Done, PendingOk, Carries;
    var z := Apply(w, Drain);
    forall i | 0 <= i < |z.bridge.conns|
      ensures InboxOk(z, z.bridge.conns[i].inbox) && AnswersOk(z.bridge.exec, z.bridge.conns[i])
    {
      assert InboxOk(w, w.bridge.conns[i].inbox) && AnswersOk(w.bridge.exec, w.bridge.conns[i]);
    }
  }

  lemma ExtractKeepsInv(w: World)
    requires Inv(w) && Enabled(w, Extract) && PushDelivery.LinkOk(w.bridge, w.handheld)
    ensures Inv(Apply(w, Extract))
  {
    hide Exec.Inv, Done, Carries, PushDelivery.Pos, PushDelivery.Bound;
    assert AnswersOk(w.bridge.exec, w.bridge.conns[w.handheld.conn.value]);
    HandheldStepKeepsInv(w, Apply(w, Extract).handheld);
  }

  /** The steps that leave the connection and the frame in hand alone, or give them up. */
  lemma LinkStepKeepsInv(w: World, step: Step)
    requires Inv(w) && Enabled(w, step) && PushDelivery.LinkOk(w.bridge, w.handheld)
    requires || step.BeginConnect? || step.OfferCommand? || step.OfferPing? || step.Drop? || step.Stop?
             || step.Attach? || step.Restart?
    ensures Inv(Apply(w, step))
  {
    hide Exec.Inv, Done, Carries, InboxOk, AnswersOk, PushDelivery.Pos, PushDelivery.Bound;
    HandheldStepKeepsInv(w, Apply(w, step).handheld);
  }

  lemma ConsumeKeepsInv(w: World)
    requires Inv(w) && Enabled(w, Consume)
    ensures Inv(Apply(w, Consume))
  {
    hide Exec.Inv, Done, Carries, InboxOk, AnswersOk;
    HandheldStepKeepsInv(w, Apply(w, Consume).handheld);
  }

  lemma StepKeepsInv(w: World, step: Step)
    requires Inv(w) && Enabled(w, step) && PushDelivery.Inv(w)
    ensures Inv(Apply(w, step))
  {
    hide Inv, Apply, Enabled, PushDelivery.LinkOk;
    match step
    case NewSession(_) => QuietBridgeKeepsInv(w, step);
    case Append(_, _, _) => QuietBridgeKeepsInv(w, step);
    case Report(_, _) => QuietBridgeKeepsInv(w, step);
    case Receive(_, _) => ConnStepKeepsInv(w, step);
    case Flush(_, _) => ConnStepKeepsInv(w, step);
    case Writable(_) => ConnStepKeepsInv(w, step);
    case CloseConn(_) => ConnStepKeepsInv(w, step);
    case Reply(_, _) => ConnStepKeepsInv(w, step);
    case Execute(x) => ExecuteKeepsInv(w, x);
    case Connected => ConnectedKeepsInv(w);
    case Drain => DrainKeepsInv(w);
    case Extract => ExtractKeepsInv(w);
    case Consume => ConsumeKeepsInv(w);
    case Queue(id, text) => QueueKeepsInv(w, id, text);
    case _ => LinkStepKeepsInv(w, step);
  }

  // ------------------------------------------------------------- all runs ---

  lemma {:induction false} RunKeepsInv(w: World, steps: seq<Step>, z: World)
    requires Inv(w) && PushDelivery.Inv(w) && Reaches(w, steps, z)
    ensures Inv(z)
    decreases |steps|
  {
    hide Inv, PushDelivery.Inv, Apply, Enabled;
    if steps != [] {
      StepKeepsInv(w, steps[0]);
      PushDelivery.StepKeepsInv(w, steps[0]);
      RunKeepsInv(Apply(w, steps[0]), steps[1..], z);
    }
  }

  lemma ReachableInv(capacity: nat, view: SessionId, z: World)
    requires capacity > 0 && Reachable(capacity, view, z)
    ensures Inv(z)
  {
    hide Inv, PushDelivery.Inv, Apply, Enabled, Reaches, Start;
    var steps :| Reaches(Start(capacity, view), steps, z);
    StartInv(capacity, view);
    PushDelivery.StartInv(capacity, view);
    RunKeepsInv(Start(capacity, view), steps, z);
  }

  /**
   The only steps that end a pending command: leaving or restarting the link, taking in its
   acknowledgement, and extracting a frame that looks like an error while the command counts as sent.
   */
  predicate Releases(w: World, step: Step) {
    var b, h := w.bridge, w.handheld;
    match step
    case Stop => true
    case Attach(_) => true
    case Restart => true
    case Consume => h.held.Some? && h.held.value.AckFrame? && h.pending.Some? && h.held.value.commandId == h.pending.value.id
    case Extract =>
      && h.phase == IsReady && h.sent
      && h.conn.Some? && h.conn.value < |b.conns| && h.received < |b.conns[h.conn.value].out|
      && LookOf(b.conns[h.conn.value].out[h.received]) == LooksError
    case _ => false
  }

  /** Whatever else happens on either side, a pending command stays as it was queued exactly until a release. */
  lemma PendingUntilReleased(w: World, step: Step)
    requires Enabled(w, step) && w.handheld.pending.Some?
    ensures Apply(w, step).handheld.pending == if Releases(w, step) then None else w.handheld.pending
  {
    hide ReceiveOn, FlushOne, ReplyTo, Exec.Apply, Exec.Enabled;
  }

  ghost predicate NeverReleased(w: World, steps: seq<Step>)
    decreases |steps|
  {
    steps == [] || (Enabled(w, steps[0]) && !Releases(w, steps[0]) && NeverReleased(Apply(w, steps[0]), steps[1..]))
  }

  /** Over any run without a release, however many reconnections it has, the pending command is the same ID and bytes. */
  lemma {:induction false} PendingSurvivesReconnects(w: World, steps: seq<Step>, z: World)
    requires Reaches(w, steps, z) && NeverReleased(w, steps) && w.handheld.pending.Some?
    ensures z.handheld.pending == w.handheld.pending
    decreases |steps|
  {
    hide Apply, Enabled, Releases;
    if steps != [] {
      PendingUntilReleased(w, steps[0]);
      PendingSurvivesReconnects(Apply(w, steps[0]), steps[1..], z);
    }
  }

  /** In every run, every copy of the pending command on any connection is the command as queued, one per connection. */
  lemma CopiesAreIdentical(capacity: nat, view: SessionId, z: World, i: nat, k: nat)
    requires capacity > 0 && Reachable(capacity, view, z)
    requires i < |z.bridge.conns| && k < |z.bridge.conns[i].inbox| && z.handheld.pending.Some?
    requires z.bridge.conns[i].inbox[k].Command? && z.bridge.conns[i].inbox[k].id == z.handheld.pending.value.id
    ensures z.bridge.conns[i].inbox[k].text == z.handheld.pending.value.text
    ensures forall l :: 0 <= l < |z.bridge.conns[i].inbox| && l != k && z.bridge.conns[i].inbox[l].Command? ==>
              z.bridge.conns[i].inbox[l].id != z.handheld.pending.value.id
  {
    hide ExecOk, AnswersOk;
    ReachableInv(capacity, view, z);
    assert InboxOk(z, z.bridge.conns[i].inbox);
  }

  /**
   In every run, the pending command has been sent on the current connection exactly when it counts
   as sent and was not queued while another frame was being sent.
   */
  lemma SentFlagIsExact(capacity: nat, view: SessionId, z: World)
    requires capacity > 0 && Reachable(capacity, view, z)
    requires z.handheld.pending.Some? && z.handheld.conn.Some?
    ensures z.handheld.conn.value < |z.bridge.conns|
    ensures (Carries(z.bridge.conns[z.handheld.conn.value].inbox, z.handheld.pending.value.id)
             <==> z.handheld.sent && !z.handheld.crossed)
  {
    hide ExecOk, AnswersOk, Carries, InboxOk;
    ReachableInv(capacity, view, z);
  }

  /** The first action for a command that is running or has succeeded. */
  ghost predicate FirstAction(x: Exec.Executor, id: CommandId, k: nat) {
    && k < |x.ops| && x.ops[k].commandId == id && Exec.Active(x, k)
    && forall j :: 0 <= j < k && x.ops[j].commandId == id ==> !Exec.Active(x, j)
  }

  lemma {:induction false} FirstActionExists(x: Exec.Executor, id: CommandId, n: nat) returns (k: nat)
    requires n < |x.ops| && x.ops[n].commandId == id && Exec.Active(x, n)
    ensures k <= n && FirstAction(x, id, k)
  {
    k := 0;
    while x.ops[k].commandId != id || !Exec.Active(x, k)
      invariant k <= n
      invariant forall j :: 0 <= j < k && x.ops[j].commandId == id ==> !Exec.Active(x, j)
      decreases n - k
    {
      k := k + 1;
    }
  }

  /** The command's action succeeded, and was the only one unless capacity acknowledgements followed it. */
  ghost predicate DoneOnce(x: Exec.Executor, id: CommandId, k: nat) {
    && FirstAction(x, id, k) && x.ops[k].state.Succeeded?
    && forall j :: k < j < |x.ops| && x.ops[j].commandId == id && Exec.Active(x, j) ==>
         x.ops[k].state.position + 1 + x.capacity <= x.ops[j].startedAt <= |x.history|
  }

  lemma DoneIsDoneOnce(x: Exec.Executor, id: CommandId) returns (k: nat)
    requires Exec.Inv(x) && Done(x, id)
    ensures DoneOnce(x, id, k)
  {
    hide Exec.RegistryIsWindow, Exec.InFlightIsRight, Exec.SuccessIsRemembered;
    var n :| 0 <= n < |x.ops| && x.ops[n].commandId == id && x.ops[n].state.Succeeded?;
    k := FirstActionExists(x, id, n);
    assert k < n ==> Exec.RestartIsLate(x, k, n);
    forall j | k < j < |x.ops| && x.ops[j].commandId == id && Exec.Active(x, j)
      ensures x.ops[k].state.position + 1 + x.capacity <= x.ops[j].startedAt <= |x.history|
    {
      assert Exec.RestartIsLate(x, k, j);
    }
  }

  /**
   In every run, when the handheld holds an acknowledgement, that command's action has succeeded;
   and if fewer than capacity other acknowledgements were remembered since, exactly once.
   */
  lemma AcknowledgedMeansDoneOnce(capacity: nat, view: SessionId, z: World, id: CommandId) returns (k: nat)
    requires capacity > 0 && Reachable(capacity, view, z)
    requires z.handheld.held == Some(AckFrame(id))
    ensures DoneOnce(z.bridge.exec, id, k)
    ensures |z.bridge.exec.history| - (z.bridge.exec.ops[k].state.position + 1) < z.bridge.exec.capacity ==>
              forall j :: 0 <= j < |z.bridge.exec.ops| && j != k && z.bridge.exec.ops[j].commandId == id ==>
                z.bridge.exec.ops[j].state.Failed?
  {
    hide Exec.Inv, Done, AnswersOk, InboxOk, PendingOk;
    ReachableInv(capacity, view, z);
    k := DoneIsDoneOnce(z.bridge.exec, id);
  }

  lemma {:induction false} ReachesFurther(w: World, steps: seq<Step>, m: World, step: Step)
    requires Reaches(w, steps, m) && Enabled(m, step)
    ensures Reaches(w, steps + [step], Apply(m, step))
    decreases |steps|
  {
    hide Enabled, Apply;
    if steps == [] {
      assert ([step])[1..] == [];
    } else {
      ReachesFurther(Apply(w, steps[0]), steps[1..], m, step);
      assert (steps + [step])[1..] == steps[1..] + [step];
    }
  }

  /** A link that is ready and has a ping in its output buffer. */
  ghost predicate PingIsGoingOut(w: World) {
    var b, h := w.bridge, w.handheld;
    && h.phase == IsReady && h.output == Some(Ping) && h.conn == Some(0) && |b.conns| == 1 && h.pending.None?
    && b.conns[0].inbox == [Hello("s", 0)] && w.issued == map[] && b.exec == Exec.Initial(1)
  }

  /** The link is about to connect to an empty session s, the only one there is. */
  ghost predicate Connects(w: World) {
    var b, h := w.bridge, w.handheld;
    && h == StartLink(Start(1, "s").handheld, "s", 0).(phase := Connecting)
    && b.logs == map["s" := []] && b.evicted == map["s" := 0] && b.conns == []
    && w.issued == map[] && b.exec == Exec.Initial(1)
  }

  ghost predicate JustConnected(w: World) {
    var b, h := w.bridge, w.handheld;
    && h.phase == SendingHello && h.output == Some(Hello("s", 0)) && h.conn == Some(0) && h.held.None? && h.received == 0
    && h.pending.None? && !h.sent && h.link == "s" && h.cursor == 0
    && b.logs == map["s" := []] && b.evicted == map["s" := 0] && b.conns == [NewConn(h, 0)]
    && w.issued == map[] && b.exec == Exec.Initial(1)
  }

  ghost predicate HelloIsSent(w: World, out: seq<Frame>) {
    var b, h := w.bridge, w.handheld;
    && h.phase == WaitingReady && h.output.None? && h.conn == Some(0) && h.held.None? && h.received == 0
    && h.pending.None? && !h.sent
    && b.logs == map["s" := []] && b.evicted == map["s" := 0] && |b.conns| == 1
    && b.conns[0].inbox == [Hello("s", 0)] && b.conns[0].out == out
    && (out == [] ==> b.conns[0] == NewConn(h.(link := "s", cursor := 0), 0).(inbox := [Hello("s", 0)]))
    && w.issued == map[] && b.exec == Exec.Initial(1)
  }

  lemma StartThenConnects() returns (steps: seq<Step>, z: World)
    ensures Reaches(Start(1, "s"), steps, z) && Connects(z)
  {
    hide Reaches;
    var w0 := Start(1, "s");
    StartReached(w0);
    ReachesFurther(w0, [], w0, NewSession("s"));
    var w1 := Apply(w0, NewSession("s"));
    ReachesFurther(w0, [] + [NewSession("s")], w1, Attach("s"));
    var w2 := Apply(w1, Attach("s"));
    steps := [] + [NewSession("s")] + [Attach("s")];
    ReachesFurther(w0, steps, w2, BeginConnect);
    steps, z := steps + [BeginConnect], Apply(w2, BeginConnect);
  }

  lemma ConnectedThenHello(w: World)
    requires Connects(w)
    ensures Enabled(w, Connected) && JustConnected(Apply(w, Connected))
  {
  }

  lemma HelloDrains(w: World)
    requires JustConnected(w)
    ensures Enabled(w, Drain) && HelloIsSent(Apply(w, Drain), [])
  {
    assert Apply(w, Drain).bridge.conns[0].inbox == [Hello("s", 0)];
  }

  /** The bridge's connection is subscribed and open, with nothing to flush. */
  ghost predicate Subscribed(w: World) {
    && |w.bridge.conns| == 1
    && var c := w.bridge.conns[0];
      c.session == Some("s") && c.sendCursor == 0 && !c.blocked && !c.ended && !c.closed && c.out == [ReadyFrame]
  }

  lemma HelloIsAnswered(w: World)
    requires HelloIsSent(w, [])
    ensures Enabled(w, Receive(0, true)) && HelloIsSent(Apply(w, Receive(0, true)), [ReadyFrame])
    ensures Subscribed(Apply(w, Receive(0, true)))
  {
    assert Apply(w, Receive(0, true)).bridge.conns[0].out == [ReadyFrame];
  }

  /** The handheld has taken the ready frame and sends nothing. */
  ghost predicate Linked(w: World) {
    var b, h := w.bridge, w.handheld;
    && h.phase == IsReady && h.output.None? && h.held == Some(ReadyFrame) && h.conn == Some(0) && h.received == 1
    && h.pending.None? && !h.sent && Subscribed(w)
    && b.logs == map["s" := []] && b.evicted == map["s" := 0]
    && b.conns[0].inbox == [Hello("s", 0)] && w.issued == map[] && b.exec == Exec.Initial(1)
  }

  lemma ReadyIsTaken(w: World)
    requires HelloIsSent(w, [ReadyFrame]) && Subscribed(w)
    ensures Enabled(w, Extract) && Linked(Apply(w, Extract))
  {
  }

  lemma PingIsOffered(w: World)
    requires Linked(w)
    ensures Enabled(w, OfferPing) && PingIsGoingOut(Apply(w, OfferPing))
  {
  }

  lemma LinkedRun() returns (steps: seq<Step>, z: World)
    ensures Reaches(Start(1, "s"), steps, z) && Linked(z)
  {
    hide *;
    var w0 := Start(1, "s");
    steps, z := StartThenConnects();
    ConnectedThenHello(z);
    ReachesFurther(w0, steps, z, Connected);
    steps, z := steps + [Connected], Apply(z, Connected);
    HelloDrains(z);
    ReachesFurther(w0, steps, z, Drain);
    steps, z := steps + [Drain], Apply(z, Drain);
    HelloIsAnswered(z);
    ReachesFurther(w0, steps, z, Receive(0, true));
    steps, z := steps + [Receive(0, true)], Apply(z, Receive(0, true));
    ReadyIsTaken(z);
    ReachesFurther(w0, steps, z, Extract);
    steps, z := steps + [Extract], Apply(z, Extract);
  }

  lemma ReadyRun() returns (steps: seq<Step>, z: World)
    ensures Reaches(Start(1, "s"), steps, z) && PingIsGoingOut(z)
  {
    hide *;
    steps, z := LinkedRun();
    PingIsOffered(z);
    ReachesFurther(Start(1, "s"), steps, z, OfferPing);
    steps, z := steps + [OfferPing], Apply(z, OfferPing);
  }

  lemma StartReached(w: World)
    ensures Reaches(w, [], w)
  {
  }

  /** The sent flag alone does not mean the command was sent: queueing it behind a ping makes the ping's last byte set it. */
  lemma SentFlagCanBeWrong() returns (z: World)
    ensures Reachable(1, "s", z)
    ensures z.handheld.sent && z.handheld.pending == Some(Pending("c", "t"))
    ensures z.handheld.conn == Some(0) && |z.bridge.conns| == 1 && !Carries(z.bridge.conns[0].inbox, "c")
  {
    hide Reaches;
    var steps, w := ReadyRun();
    ReachesFurther(Start(1, "s"), steps, w, Queue("c", "t"));
    var w' := Apply(w, Queue("c", "t"));
    ReachesFurther(Start(1, "s"), steps + [Queue("c", "t")], w', Drain);
    z := Apply(w', Drain);
    assert z.bridge.conns[0].inbox == [Hello("s", 0), Ping];
  }

  const LOOKS_LIKE_AN_ERROR := Payload("", LooksError)

  /** The command has been sent to its last byte, and the bridge has not looked at it. */
  ghost predicate CommandIsSent(w: World) {
    var b, h := w.bridge, w.handheld;
    && h.phase == IsReady && h.held.None? && h.conn == Some(0) && h.received == 1
    && h.pending == Some(Pending("c", "t")) && h.sent && Subscribed(w)
    && b.logs == map["s" := []] && b.evicted == map["s" := 0] && Carries(b.conns[0].inbox, "c")
  }

  /** The command is in the output buffer, of which nothing has been sent. */
  ghost predicate CommandIsGoingOut(w: World) {
    var b, h := w.bridge, w.handheld;
    && h.phase == IsReady && h.held.None? && h.conn == Some(0) && h.received == 1
    && h.output == Some(Command("c", "t")) && h.pending == Some(Pending("c", "t")) && Subscribed(w)
    && b.logs == map["s" := []] && b.evicted == map["s" := 0]
  }

  lemma CommandIsQueued(w: World) returns (z: World)
    requires Linked(w)
    ensures Enabled(w, Consume) && Enabled(Apply(w, Consume), Queue("c", "t")) && z == Apply(Apply(w, Consume), Queue("c", "t"))
    ensures Enabled(z, OfferCommand) && CommandIsGoingOut(Apply(z, OfferCommand))
  {
    z := Apply(Apply(w, Consume), Queue("c", "t"));
  }

  lemma CommandDrains(w: World)
    requires CommandIsGoingOut(w)
    ensures Enabled(w, Drain) && CommandIsSent(Apply(w, Drain))
  {
    hide Carries;
    LastIsCarried(w.bridge.conns[0].inbox, "c", "t");
  }

  lemma CommandGoesOut(w: World) returns (steps: seq<Step>, z: World)
    requires Linked(w)
    ensures Reaches(w, steps, z) && CommandIsSent(z)
  {
    hide *;
    StartReached(w);
    var queued := CommandIsQueued(w);
    ReachesFurther(w, [], w, Consume);
    ReachesFurther(w, [] + [Consume], Apply(w, Consume), Queue("c", "t"));
    steps := [] + [Consume] + [Queue("c", "t")];
    ReachesFurther(w, steps, queued, OfferCommand);
    var offered := Apply(queued, OfferCommand);
    CommandDrains(offered);
    ReachesFurther(w, steps + [OfferCommand], offered, Drain);
    steps, z := steps + [OfferCommand] + [Drain], Apply(offered, Drain);
  }

  lemma LastIsCarried(inbox: seq<Request>, id: CommandId, text: string)
    ensures Carries(inbox + [Command(id, text)], id)
  {
    assert (inbox + [Command(id, text)])[|inbox|].Command?;
  }

  lemma ErrorEventIsPushed(w: World) returns (steps: seq<Step>, z: World)
    requires CommandIsSent(w)
    ensures Reaches(w, steps, z) && z.handheld.pending.None? && z.handheld.held == Some(EventFrame(1, LOOKS_LIKE_AN_ERROR))
    ensures z.handheld.conn == Some(0) && |z.bridge.conns| == 1
    ensures z.bridge.conns[0].out == [ReadyFrame, EventFrame(1, LOOKS_LIKE_AN_ERROR)] && Carries(z.bridge.conns[0].inbox, "c")
  {
    hide Reaches, Carries;
    StartReached(w);
    ReachesFurther(w, [], w, Append("s", LOOKS_LIKE_AN_ERROR, 0));
    var w1 := Apply(w, Append("s", LOOKS_LIKE_AN_ERROR, 0));
    assert Log(w1.bridge, "s") == [LOOKS_LIKE_AN_ERROR];
    steps := [] + [Append("s", LOOKS_LIKE_AN_ERROR, 0)];
    ReachesFurther(w, steps, w1, Flush(0, true));
    var w2 := Apply(w1, Flush(0, true));
    assert w2.bridge.conns[0].out == [ReadyFrame, EventFrame(1, LOOKS_LIKE_AN_ERROR)];
    steps := steps + [Flush(0, true)];
    ReachesFurther(w, steps, w2, Extract);
    steps, z := steps + [Extract], Apply(w2, Extract);
  }

  /** A command that has been sent is given up because a pushed event looks like an error: nothing has answered it. */
  lemma EventCanReleaseCommand() returns (z: World)
    ensures Reachable(1, "s", z) && "c" in z.issued && z.handheld.pending.None?
    ensures z.handheld.conn == Some(0) && |z.bridge.conns| == 1 && Carries(z.bridge.conns[0].inbox, "c")
    ensures z.bridge.conns[0].out == [ReadyFrame, EventFrame(1, LOOKS_LIKE_AN_ERROR)]
  {
    hide Reaches, Linked, Carries, Start;
    var steps, w := LinkedRun();
    var more, w' := CommandGoesOut(w);
    var rest, w'' := ErrorEventIsPushed(w');
    ReachesOn(Start(1, "s"), steps, w, more, w');
    ReachesOn(Start(1, "s"), steps + more, w', rest, w'');
    z := w'';
    CarriedIsIssued(z);
  }

  lemma CarriedIsIssued(z: World)
    requires Reachable(1, "s", z) && |z.bridge.conns| == 1 && Carries(z.bridge.conns[0].inbox, "c")
    ensures "c" in z.issued
  {
    hide Reachable;
    ReachableInv(1, "s", z);
    assert InboxOk(z, z.bridge.conns[0].inbox);
  }
}

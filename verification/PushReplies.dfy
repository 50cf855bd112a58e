/**
 What the bridge writes in answer to what it receives: every frame but a command at once, and a command
 when its action is over, with its own ID if the action has succeeded and with an error if it has failed.
 */
module PushReplies {
  import opened Options
  import opened CommandRegistry
  import opened PushProtocol
  import Exec = CommandExecutor
  import PushDelivery
  import PushCommands

  /** The bridge can write to this connection. */
  predicate Open(c: Conn) {
    !c.closed && !c.blocked && !c.ended
  }

  /** A frame is written exactly to an open connection; a blocked one is destroyed, and one that has ended only blocks. */
  lemma WrittenExactlyWhenOpen(c: Conn, frame: Frame, writable: bool)
    ensures Send(c, frame, writable).out == if Open(c) then c.out + [frame] else c.out
    ensures Send(c, frame, writable).closed <==> c.closed || c.blocked
    ensures Send(c, frame, writable).blocked <==> c.blocked || (!c.closed && (c.ended || !writable))
    ensures Send(c, frame, writable) == c.(out := Send(c, frame, writable).out, closed := c.closed || c.blocked,
                                           blocked := Send(c, frame, writable).blocked)
  {
  }

  // ------------------------------------------------ answers given at once ---

  /** How a request is answered when it is taken; a command that is begun is answered later. */
  ghost function AnswerAtOnce(b: Bridge, c: Conn, request: Request): seq<Frame> {
    match request
    case Ping => if c.session.Some? then [PongFrame] else [ErrorFrame]
    case Command(_, _) => if c.session.Some? && c.busy == Idle then [] else [ErrorFrame]
    case Hello(session, after) =>
      if c.session.Some? || session !in b.logs then [ErrorFrame]
      else if after < Evicted(b, session) || |b.logs[session]| < after then [ResyncFrame(|b.logs[session]|, Summary(b, session))]
      else [ReadyFrame]
  }

  /** A request on an open connection gets its answer and no other frame. */
  lemma RequestIsAnswered(w: World, i: nat, writable: bool)
    requires Enabled(w, Receive(i, writable)) && Open(w.bridge.conns[i])
    ensures var c, z := w.bridge.conns[i], Apply(w, Receive(i, writable));
      && |z.bridge.conns| == |w.bridge.conns|
      && z.bridge.conns[i].out == c.out + AnswerAtOnce(w.bridge, c, c.inbox[c.processed])
  {
    hide Exec.Begin, Exec.Inv, HandleHello, HandlePing, HandleCommand, CursorRefused;
    var b, c := w.bridge, w.bridge.conns[i];
    var taken := c.(processed := c.processed + 1);
    match c.inbox[c.processed]
    case Hello(session, after) => HelloIsAnswered(b, taken, session, after, writable);
    case Ping => PingIsAnswered(b, taken, writable);
    case Command(id, text) => CommandIsAnswered(b, taken, id, text, writable);
  }

  lemma HelloIsAnswered(b: Bridge, c: Conn, session: SessionId, after: nat, writable: bool)
    requires Open(c)
    ensures HandleHello(b, c, session, after, writable).out == c.out + AnswerAtOnce(b, c, Hello(session, after))
  {
  }

  lemma PingIsAnswered(b: Bridge, c: Conn, writable: bool)
    requires Open(c)
    ensures HandlePing(c, writable).out == c.out + AnswerAtOnce(b, c, Ping)
  {
  }

  lemma CommandIsAnswered(b: Bridge, c: Conn, id: CommandId, text: string, writable: bool)
    requires Open(c)
    ensures HandleCommand(b.exec, c, id, writable).1.out == c.out + AnswerAtOnce(b, c, Command(id, text))
  {
    hide Exec.Begin;
    assert c.out + [] == c.out;
  }

  /** A connection follows a session from its first accepted hello on, and is ended by one that cannot be accepted. */
  lemma HelloSubscribes(b: Bridge, c: Conn, session: SessionId, after: nat, writable: bool)
    requires Open(c)
    ensures var d := HandleHello(b, c, session, after, writable);
      var refused := session in b.logs && (after < Evicted(b, session) || |b.logs[session]| < after);
      && (d.session == if c.session.None? && session in b.logs then Some(session) else c.session)
      && (d.sendCursor == if c.session.None? && session in b.logs then after else c.sendCursor)
      && (d.ended <==> c.session.None? && (session !in b.logs || refused))
      && d.busy == c.busy && d.closed == c.closed && d.blocked == !writable
  {
  }

  // -------------------------------------------------- answers to commands ---

  /** The bridge takes a command and begins to execute it, or to look up how it has been answered before. */
  ghost predicate Begins(w: World, i: nat, writable: bool, id: CommandId) {
    && Enabled(w, Receive(i, writable))
    && var c := w.bridge.conns[i];
      c.session.Some? && c.busy == Idle && c.inbox[c.processed].Command? && c.inbox[c.processed].id == id
  }

  /** The action that a delivery waits for: the one in flight, or a new one. */
  ghost function ActionOf(x: Exec.Executor, id: CommandId): nat {
    if id in x.inFlight then x.inFlight[id] else |x.ops|
  }

  /** What the connection owes for the command, in terms of the executor when it was delivered. */
  ghost predicate Owes(x: Exec.Executor, c: Conn, id: CommandId, remembered: bool, action: nat) {
    if remembered then c.busy.Answering? && c.busy.ack.commandId == id
    else c.busy == Waiting(action) && action < |x.ops| && x.ops[action].commandId == id
  }

  lemma BegunIsOwed(w: World, i: nat, writable: bool, id: CommandId)
    requires PushCommands.Inv(w) && Begins(w, i, writable, id)
    ensures var x, z := w.bridge.exec, Apply(w, Receive(i, writable));
      && i < |z.bridge.conns|
      && Owes(z.bridge.exec, z.bridge.conns[i], id, Holds(x.registry, id), ActionOf(x, id))
  {
    hide PushCommands.PendingOk, PushCommands.InboxOk, PushCommands.AnswersOk, PushCommands.Done, Exec.RegistryIsWindow,
      Exec.SuccessIsRemembered, Exec.RestartIsLate, Holds;
  }

  ghost predicate RepliesOn(step: Step, i: nat) {
    step.Reply? && step.conn == i
  }

  /** Until the reply, whatever else happens, the same is owed. */
  lemma OwedUntilReply(w: World, step: Step, i: nat, id: CommandId, remembered: bool, action: nat)
    requires Enabled(w, step) && i < |w.bridge.conns| && !RepliesOn(step, i)
    requires Owes(w.bridge.exec, w.bridge.conns[i], id, remembered, action)
    ensures var z := Apply(w, step);
      i < |z.bridge.conns| && Owes(z.bridge.exec, z.bridge.conns[i], id, remembered, action)
  {
    hide Exec.Apply, Exec.Enabled, IsFreshId, ReplyTo, ConsumeFrame, ExtractFrame, StopLink, StartLink, DropLink;
    match step
    case Execute(s) => Exec.HistoryGrows(w.bridge.exec, s);
    case Receive(j, writable) => ReceiveKeepsBusy(w.bridge, j, writable, i);
    case Flush(j, writable) => FlushKeepsBusy(w.bridge, w.bridge.conns[j], writable);
    case _ =>
  }

  lemma FlushKeepsBusy(b: Bridge, c: Conn, writable: bool)
    ensures FlushOne(b, c, writable).busy == c.busy
  {
  }

  lemma ReceiveKeepsBusy(b: Bridge, j: nat, writable: bool, i: nat)
    requires j < |b.conns| && b.conns[j].processed < |b.conns[j].inbox| && i < |b.conns| && b.conns[i].busy != Idle
    ensures var b' := ReceiveOn(b, j, writable);
      && |b'.conns| == |b.conns| && b'.conns[i].busy == b.conns[i].busy
      && |b.exec.ops| <= |b'.exec.ops| && forall k :: 0 <= k < |b.exec.ops| ==> b'.exec.ops[k] == b.exec.ops[k]
  {
    hide CursorRefused, HandleHello, HandlePing, HandleCommand;
    var c := b.conns[j].(processed := b.conns[j].processed + 1);
    match b.conns[j].inbox[b.conns[j].processed]
    case Hello(session, after) => HelloKeepsBusy(b, c, session, after, writable);
    case Ping => PingKeepsBusy(c, writable);
    case Command(id, _) => CommandKeepsBusy(b.exec, c, id, writable);
  }

  lemma HelloKeepsBusy(b: Bridge, c: Conn, session: SessionId, after: nat, writable: bool)
    ensures HandleHello(b, c, session, after, writable).busy == c.busy
  {
    hide CursorRefused;
  }

  lemma PingKeepsBusy(c: Conn, writable: bool)
    ensures HandlePing(c, writable).busy == c.busy
  {
  }

  lemma CommandKeepsBusy(x: Exec.Executor, c: Conn, id: CommandId, writable: bool)
    ensures var (y, d) := HandleCommand(x, c, id, writable);
      && (c.busy != Idle ==> d.busy == c.busy)
      && |x.ops| <= |y.ops| && forall k :: 0 <= k < |x.ops| ==> y.ops[k] == x.ops[k]
  {
  }

  ghost predicate NoReply(steps: seq<Step>, i: nat) {
    forall k :: 0 <= k < |steps| ==> !RepliesOn(steps[k], i)
  }

  lemma {:induction false} OwedThroughout(w: World, steps: seq<Step>, m: World, i: nat, id: CommandId, remembered: bool, action: nat)
    requires Reaches(w, steps, m) && NoReply(steps, i) && i < |w.bridge.conns|
    requires Owes(w.bridge.exec, w.bridge.conns[i], id, remembered, action)
    ensures i < |m.bridge.conns| && Owes(m.bridge.exec, m.bridge.conns[i], id, remembered, action)
    decreases |steps|
  {
    hide Enabled, Apply, Owes;
    if steps != [] {
      OwedUntilReply(w, steps[0], i, id, remembered, action);
      OwedThroughout(Apply(w, steps[0]), steps[1..], m, i, id, remembered, action);
    }
  }

  lemma OwedIsPaid(m: World, i: nat, writable: bool, id: CommandId, remembered: bool, action: nat)
    requires PushCommands.Inv(m) && i < |m.bridge.conns|
    requires Owes(m.bridge.exec, m.bridge.conns[i], id, remembered, action)
    ensures Enabled(m, Reply(i, writable)) <==> remembered || !m.bridge.exec.ops[action].state.Running?
    ensures Enabled(m, Reply(i, writable)) ==>
      var c, d := m.bridge.conns[i], Apply(m, Reply(i, writable)).bridge.conns[i];
      && d.busy == Idle
      && d.out == if !Open(c) then c.out
                  else c.out + [if remembered || m.bridge.exec.ops[action].state.Succeeded? then AckFrame(id) else ErrorFrame]
  {
    hide PushCommands.PendingOk, PushCommands.InboxOk, PushCommands.AnswersOk, PushCommands.Done, Exec.Inv;
    if !remembered && m.bridge.exec.ops[action].state.Succeeded? {
      SuccessHasItsId(m.bridge.exec, action);
    }
  }

  lemma SuccessHasItsId(x: Exec.Executor, k: nat)
    requires Exec.Inv(x) && k < |x.ops| && x.ops[k].state.Succeeded?
    ensures x.ops[k].state.ack.commandId == x.ops[k].commandId
  {
    hide Exec.InFlightIsRight, Exec.RestartIsLate;
    assert Exec.SuccessIsRemembered(x, k);
  }

  /**
   Over every run, from the command in the inbox to the frame in the output: once begun, a command is answered as
   soon as its acknowledgement was remembered or its action is over. If the connection is open then, the answer is
   one frame, an acknowledgement with the command's own ID if it was remembered or its action has succeeded, and an
   error if its action has failed.
   */
  lemma EveryCommandIsAnswered(capacity: nat, view: SessionId, w: World, i: nat, writable: bool, id: CommandId,
                               steps: seq<Step>, m: World, again: bool)
    requires capacity > 0 && Reachable(capacity, view, w) && Begins(w, i, writable, id)
    requires Reaches(Apply(w, Receive(i, writable)), steps, m) && NoReply(steps, i)
    ensures var remembered, action := Holds(w.bridge.exec.registry, id), ActionOf(w.bridge.exec, id);
      && i < |m.bridge.conns|
      && (!remembered ==> action < |m.bridge.exec.ops| && m.bridge.exec.ops[action].commandId == id)
      && (Enabled(m, Reply(i, again)) <==> remembered || !m.bridge.exec.ops[action].state.Running?)
    ensures Enabled(m, Reply(i, again)) && Open(m.bridge.conns[i]) ==>
      var c, d := m.bridge.conns[i], Apply(m, Reply(i, again)).bridge.conns[i];
      var remembered, action := Holds(w.bridge.exec.registry, id), ActionOf(w.bridge.exec, id);
      && |d.out| == |c.out| + 1 && d.out[..|c.out|] == c.out
      && (d.out[|c.out|] == AckFrame(id) <==> remembered || m.bridge.exec.ops[action].state.Succeeded?)
      && (d.out[|c.out|] == ErrorFrame <==> !remembered && m.bridge.exec.ops[action].state.Failed?)
    ensures Enabled(m, Reply(i, again)) && !Open(m.bridge.conns[i]) ==>
      Apply(m, Reply(i, again)).bridge.conns[i].out == m.bridge.conns[i].out
  {
    hide Enabled, Apply, Owes, PushCommands.Inv, PushDelivery.Inv, Reaches, Holds, ReplyTo;
    var x := w.bridge.exec;
    PushCommands.ReachableInv(capacity, view, w);
    BegunIsOwed(w, i, writable, id);
    OwedThroughout(Apply(w, Receive(i, writable)), steps, m, i, id, Holds(x.registry, id), ActionOf(x, id));
    ReachableAfter(capacity, view, w, Receive(i, writable), steps, m);
    PushCommands.ReachableInv(capacity, view, m);
    OwedIsPaid(m, i, again, id, Holds(x.registry, id), ActionOf(x, id));
    OwedMeans(m.bridge.exec, m.bridge.conns[i], id, Holds(x.registry, id), ActionOf(x, id));
  }

  lemma OwedMeans(x: Exec.Executor, c: Conn, id: CommandId, remembered: bool, action: nat)
    requires Owes(x, c, id, remembered, action)
    ensures !remembered ==> action < |x.ops| && x.ops[action].commandId == id
  {
  }

  lemma ReachableAfter(capacity: nat, view: SessionId, w: World, step: Step, steps: seq<Step>, m: World)
    requires Reachable(capacity, view, w) && Enabled(w, step) && Reaches(Apply(w, step), steps, m)
    ensures Reachable(capacity, view, m)
  {
    hide Enabled, Apply, Reaches, Start;
    var first :| Reaches(Start(capacity, view), first, w);
    PushCommands.ReachesFurther(Start(capacity, view), first, w, step);
    ReachesOn(Start(capacity, view), first + [step], Apply(w, step), steps, m);
  }
}

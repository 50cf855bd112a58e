/**
 What a turn of the push link gets done, told by what the network does: which request goes out and when it is
 whole, and that a pending command reaches the bridge however little the socket takes at a time.
 */
module PushProgress {
  import opened Options
  import opened PushLink
  import P = PushProtocol
  import PushCommands

  predicate Sending(h: P.Handheld) {
    h.phase in {P.SendingHello, P.WaitingReady, P.IsReady} && h.output.Some?
  }

  /** What goes wrong with a link that has nothing to send: it is given up, and will connect again. */
  predicate GoesWrong(h: P.Handheld, around: Surroundings) {
    || (h.phase == P.IsReady && around.heartbeatLost)
    || (h.phase == P.WaitingReady && around.deadlineExpired)
    || (h.phase == P.Connecting && (around.deadlineExpired || around.socket == Broken))
    || (h.phase == P.Retrying && around.reconnectDue && around.connect == Refused)
  }

  // ----------------------------------------------------------- single turns ---

  lemma SettledDelivers(l: Link, size: P.Request -> Size, around: Surroundings)
    ensures LinkRuns(l.h, SettledSteps(l.h, l.ping, around))
    ensures Ended(l, size, SettledSteps(l.h, l.ping, around)).delivered == l.delivered
  {
    hide LinkRuns, Ended, P.DropLink, P.ExtractFrame, ReceiveSteps;
    SettledIsARun(l.h, l.ping, around);
    EndNowhere(l, size);
    if l.h.phase in {P.WaitingReady, P.IsReady} {
      EndOne(l, size, Drop);
      ReceiveDelivers(l, size, around);
    }
    if l.h.phase == P.IsReady && l.h.output.None? {
      var offer := if l.h.pending.Some? && !l.h.sent then OfferCommand else OfferPing;
      ReceiveIgnoresOutput(l.h, offer, around);
      ReceiveDelivers(LinkNext(l, size, offer), size, around);
      EndFrom(l, size, offer, ReceiveSteps(l.h, around));
    }
  }

  /** Taking in what has arrived: the frame is held, or the link is dropped. */
  lemma ReceiveDelivers(l: Link, size: P.Request -> Size, around: Surroundings)
    requires l.h.phase in {P.WaitingReady, P.IsReady}
    ensures LinkRuns(l.h, ReceiveSteps(l.h, around))
    ensures var r := Ended(l, size, ReceiveSteps(l.h, around));
      && r.delivered == l.delivered
      && (l.h.held.Some? || around.arrival == Nothing ==> r == l)
      && (r.h.phase != P.Retrying ==> r.h.output == l.h.output && r.unsent == l.unsent && (!l.h.sent ==> !r.h.sent))
      && (l.h.held.None? && around.arrival.Arrived? ==> r.h.held == Some(around.arrival.frame))
      && (l.h.held.None? && (around.arrival == Overflow || around.arrival == ConnectionClosed) ==> r.h.phase == P.Retrying)
  {
    hide LinkRuns, Ended;
    ReceiveIsARun(l.h, around);
    EndNowhere(l, size);
    EndOne(l, size, Drop);
    if around.arrival.Arrived? && l.h.held.None? {
      EndOne(l, size, Extract(around.arrival.frame));
    }
  }

  /** A part of the output: so many bytes fewer are left, and nothing else changes. */
  lemma PartIsTaken(l: Link, size: P.Request -> Size, around: Surroundings)
    requires Sending(l.h) && around.sent.Accepted? && around.sent.bytes < l.unsent
    ensures TurnOf(l, size, around) == l.(unsent := l.unsent - around.sent.bytes)
  {
  }

  /** The rest of the output: the request has been delivered, whatever else the turn does. */
  lemma RestIsTaken(l: Link, size: P.Request -> Size, around: Surroundings)
    requires Sending(l.h) && around.sent.Accepted? && around.sent.bytes >= l.unsent
    ensures TurnOf(l, size, around).delivered == l.delivered + [l.h.output.value]
  {
    hide LinkRuns, Ended, SettledSteps, P.OutputDrained;
    var drained := LinkNext(l, size, Drain);
    SettledDelivers(drained, size, around);
    EndFrom(l, size, Drain, SettledSteps(drained.h, l.ping, around));
  }

  /** A failed send gives the connection up. */
  lemma FailedSendDrops(l: Link, size: P.Request -> Size, around: Surroundings)
    requires Sending(l.h) && around.sent == SendFailed
    ensures TurnOf(l, size, around) == l.(h := P.DropLink(l.h), unsent := 0, ping := false)
  {
    hide LinkRuns, Ended, P.DropLink;
    EndOne(l, size, Drop);
  }

  /** With nothing to send, a waiting link delivers nothing. */
  lemma IdleDelivers(l: Link, size: P.Request -> Size, around: Surroundings)
    requires l.h.phase in {P.SendingHello, P.WaitingReady, P.IsReady} && l.h.output.None?
    ensures TurnOf(l, size, around).delivered == l.delivered
  {
    hide LinkRuns, Ended, SettledSteps;
    SettledDelivers(l, size, around);
  }

  /** The pending command, if it has not been sent, is what a free link puts into its output, all of it still to be sent. */
  lemma CommandIsOffered(l: Link, size: P.Request -> Size, around: Surroundings)
    requires l.h.phase == P.IsReady && l.h.output.None? && l.h.pending.Some? && !l.h.sent
    ensures var command := P.Command(l.h.pending.value.id, l.h.pending.value.text);
      var r := TurnOf(l, size, around);
      && (around.heartbeatLost ==> r.h.phase == P.Retrying)
      && (!around.heartbeatLost && (around.arrival == Nothing || l.h.held.Some?) ==>
            r == l.(h := l.h.(output := Some(command)), unsent := size(command)))
      && (r.h.phase == P.Retrying || (r.h.output == Some(command) && r.unsent == size(command) && !r.h.sent))
  {
    hide LinkRuns, Ended, ReceiveSteps;
    var offered := LinkNext(l, size, OfferCommand);
    EndOne(l, size, Drop);
    ReceiveIgnoresOutput(l.h, OfferCommand, around);
    ReceiveDelivers(offered, size, around);
    EndFrom(l, size, OfferCommand, ReceiveSteps(offered.h, around));
  }

  /** Without a command to send, a quiet link pings, once until it hears something. */
  lemma PingIsOffered(l: Link, size: P.Request -> Size, around: Surroundings)
    requires l.h.phase == P.IsReady && l.h.output.None? && !(l.h.pending.Some? && !l.h.sent) && !around.heartbeatLost
    requires around.arrival == Nothing || l.h.held.Some?
    ensures TurnOf(l, size, around)
         == if around.quiet && !l.ping then l.(h := l.h.(output := Some(P.Ping)), unsent := size(P.Ping), ping := true) else l
  {
    hide LinkRuns, Ended, ReceiveSteps;
    if around.quiet && !l.ping {
      var offered := LinkNext(l, size, OfferPing);
      ReceiveIgnoresOutput(l.h, OfferPing, around);
      ReceiveDelivers(offered, size, around);
      EndFrom(l, size, OfferPing, ReceiveSteps(offered.h, around));
    } else {
      ReceiveDelivers(l, size, around);
    }
  }

  /** A link that connects begins with the hello of its session and cursor. */
  lemma HelloIsOffered(l: Link, size: P.Request -> Size, around: Surroundings)
    requires (l.h.phase == P.Connecting && !around.deadlineExpired && around.socket == Ready)
          || (l.h.phase == P.Retrying && around.reconnectDue && around.connect == Complete)
    ensures var r, hello := TurnOf(l, size, around), P.Hello(l.h.link, l.h.cursor);
      r.h.phase == P.SendingHello && r.h.output == Some(hello) && r.unsent == size(hello) && r.delivered == []
      && r.h.conn == Some(around.newConn) && r.h.received == 0
  {
    hide LinkRuns, Ended;
    if l.h.phase == P.Connecting {
      EndOne(l, size, Connected(around.newConn));
    } else {
      var connecting := LinkNext(l, size, BeginConnect);
      EndOne(connecting, size, Connected(around.newConn));
      EndFrom(l, size, BeginConnect, [Connected(around.newConn)]);
    }
  }

  /** A link with nothing else to do takes in the next frame. */
  lemma FrameIsTaken(l: Link, size: P.Request -> Size, around: Surroundings, frame: P.Frame)
    requires l.h.phase in {P.WaitingReady, P.IsReady} && l.h.output.None? && l.h.held.None? && !GoesWrong(l.h, around)
    requires around.arrival == Arrived(frame)
    ensures TurnOf(l, size, around).h.held == Some(frame)
  {
    hide LinkRuns, Ended, ReceiveSteps, P.DropLink;
    ReceiveDelivers(l, size, around);
    if l.h.phase == P.WaitingReady {
      return;
    }
    var offer := if l.h.pending.Some? && !l.h.sent then OfferCommand else OfferPing;
    ReceiveIgnoresOutput(l.h, offer, around);
    ReceiveDelivers(LinkNext(l, size, offer), size, around);
    EndFrom(l, size, offer, ReceiveSteps(l.h, around));
  }

  /** Such a link forgets what it was sending, and nothing more has been delivered. */
  lemma LostLinkIsDropped(l: Link, size: P.Request -> Size, around: Surroundings)
    requires l.h.output.None? && GoesWrong(l.h, around)
    ensures TurnOf(l, size, around) == Link(P.DropLink(l.h), 0, false, l.delivered)
  {
    hide LinkRuns, Ended;
    if l.h.phase == P.Retrying {
      var connecting := LinkNext(l, size, BeginConnect);
      EndOne(connecting, size, Drop);
      EndFrom(l, size, BeginConnect, [Drop]);
    } else {
      EndOne(l, size, Drop);
    }
  }

  /** A link with nothing to do yet stays as it is, but for a connection that has been begun. */
  lemma IdleLinkWaits(l: Link, size: P.Request -> Size, around: Surroundings)
    requires || l.h.phase == P.Stopped
             || (l.h.phase == P.Retrying && (!around.reconnectDue || around.connect == InProgress))
             || (l.h.phase == P.Connecting && !around.deadlineExpired && around.socket == NotYet)
    ensures TurnOf(l, size, around)
         == if l.h.phase == P.Retrying && around.reconnectDue then l.(h := l.h.(phase := P.Connecting)) else l
  {
    hide LinkRuns, Ended;
    EndNowhere(l, size);
    if l.h.phase == P.Retrying && around.reconnectDue {
      EndOne(l, size, BeginConnect);
      assert [BeginConnect] + [] == [BeginConnect];
    }
  }

  // ------------------------------------------------------------ many turns ---

  /** Between turns frames are handled, which moves cursors but leaves what is being sent alone. */
  ghost predicate Calm(l: Link, m: Link) {
    && m.h.phase == l.h.phase && m.h.output == l.h.output && m.unsent == l.unsent && m.delivered == l.delivered
    && (m.h.pending == l.h.pending ==> m.h.sent == l.h.sent)
  }

  ghost predicate Turns(ls: seq<Link>, arounds: seq<Surroundings>, size: P.Request -> Size) {
    && |ls| == |arounds| + 1
    && forall k :: 0 <= k < |arounds| ==> Calm(TurnOf(ls[k], size, arounds[k]), ls[k + 1])
  }

  ghost function Bytes(arounds: seq<Surroundings>): nat {
    if arounds == [] then 0
    else Bytes(arounds[..|arounds| - 1]) + match arounds[|arounds| - 1].sent case Accepted(bytes) => bytes case SendFailed => 0
  }

  lemma {:induction false} PartsAreTaken(ls: seq<Link>, arounds: seq<Surroundings>, size: P.Request -> Size)
    requires Turns(ls, arounds, size) && Sending(ls[0].h)
    requires (forall k :: 0 <= k < |arounds| ==> arounds[k].sent.Accepted?) && Bytes(arounds) < ls[0].unsent
    ensures var l, r := ls[0], ls[|arounds|];
      && r.h.phase == l.h.phase && r.h.output == l.h.output && r.delivered == l.delivered
      && r.unsent == l.unsent - Bytes(arounds)
  {
    hide TurnOf;
    if arounds != [] {
      var n := |arounds| - 1;
      PartsAreTaken(ls[..n + 1], arounds[..n], size);
      PartIsTaken(ls[n], size, arounds[n]);
    }
  }

  /**
   A request reaches the bridge in the turn in which the bytes accepted for it add up to its size, and not before:
   a part of it is never counted as the whole.
   */
  lemma DeliveredExactlyWhenWhole(ls: seq<Link>, arounds: seq<Surroundings>, size: P.Request -> Size)
    requires Turns(ls, arounds, size) && Sending(ls[0].h) && arounds != []
    requires forall k :: 0 <= k < |arounds| ==> arounds[k].sent.Accepted?
    requires Bytes(arounds[..|arounds| - 1]) < ls[0].unsent
    ensures ls[|arounds|].delivered == ls[0].delivered + (if Bytes(arounds) >= ls[0].unsent then [ls[0].h.output.value] else [])
  {
    hide TurnOf;
    var n := |arounds| - 1;
    PartsAreTaken(ls[..n + 1], arounds[..n], size);
    assert Calm(TurnOf(ls[n], size, arounds[n]), ls[n + 1]);
    if Bytes(arounds) >= ls[0].unsent {
      RestIsTaken(ls[n], size, arounds[n]);
    } else {
      PartIsTaken(ls[n], size, arounds[n]);
      assert ls[0].delivered + [] == ls[0].delivered;
    }
  }

  /** The link stays up with this command pending, and the socket takes something in every turn. */
  ghost predicate StaysUp(ls: seq<Link>, arounds: seq<Surroundings>, pending: P.Pending) {
    && (forall k :: 0 <= k < |ls| ==> ls[k].h.phase == P.IsReady && ls[k].h.pending == Some(pending))
    && (forall k :: 0 <= k < |arounds| ==> arounds[k].sent.Accepted? && arounds[k].sent.bytes > 0)
  }

  /** The command is still to be offered, or is the output with bytes left. */
  ghost predicate ToSend(l: Link, command: P.Request) {
    !l.h.sent && (l.h.output.None? || (l.h.output == Some(command) && l.unsent > 0))
  }

  ghost function TurnsLeft(l: Link, command: P.Request, size: P.Request -> Size): nat {
    if l.h.output.None? then 1 + size(command) else l.unsent
  }

  lemma TurnSendsMore(l: Link, size: P.Request -> Size, around: Surroundings, m: Link, pending: P.Pending)
    requires l.h.phase == P.IsReady == m.h.phase && l.h.pending == Some(pending) == m.h.pending
    requires around.sent.Accepted? && around.sent.bytes > 0 && Calm(TurnOf(l, size, around), m)
    ensures l.delivered <= m.delivered
    ensures var command := P.Command(pending.id, pending.text);
      ToSend(l, command) ==> command in m.delivered
                             || (ToSend(m, command) && TurnsLeft(m, command, size) < TurnsLeft(l, command, size))
  {
    hide TurnOf;
    var r := TurnOf(l, size, around);
    if l.h.output.None? {
      IdleDelivers(l, size, around);
      if !l.h.sent {
        CommandIsOffered(l, size, around);
        OfferKeepsPending(l, size, around);
      }
    } else if around.sent.bytes < l.unsent {
      PartIsTaken(l, size, around);
    } else {
      RestIsTaken(l, size, around);
      assert r.delivered[|l.delivered|] == l.h.output.value;
    }
  }

  /** Offering a command that does not count as sent does not release it. */
  lemma OfferKeepsPending(l: Link, size: P.Request -> Size, around: Surroundings)
    requires l.h.phase == P.IsReady && l.h.output.None? && l.h.pending.Some? && !l.h.sent
    ensures TurnOf(l, size, around).h.pending == l.h.pending
  {
    hide LinkRuns, Ended;
    var offered := LinkNext(l, size, OfferCommand);
    EndOne(l, size, Drop);
    ReceiveIgnoresOutput(l.h, OfferCommand, around);
    ReceiveIsARun(offered.h, around);
    EndNowhere(offered, size);
    EndOne(offered, size, Drop);
    if around.arrival.Arrived? && l.h.held.None? {
      EndOne(offered, size, Extract(around.arrival.frame));
    }
    EndFrom(l, size, OfferCommand, ReceiveSteps(offered.h, around));
  }

  /**
   While the link is up and the socket takes at least a byte a turn, a command that is free to go has been delivered
   whole after as many turns as it has bytes left, and one more if it had not been offered yet.
   */
  lemma {:induction false} CommandIsDelivered(ls: seq<Link>, arounds: seq<Surroundings>, size: P.Request -> Size, pending: P.Pending)
    requires Turns(ls, arounds, size) && StaysUp(ls, arounds, pending)
    requires ToSend(ls[0], P.Command(pending.id, pending.text))
    ensures var command, n := P.Command(pending.id, pending.text), |arounds|;
      command in ls[n].delivered
      || (ToSend(ls[n], command) && TurnsLeft(ls[n], command, size) + n <= TurnsLeft(ls[0], command, size))
    ensures |arounds| >= TurnsLeft(ls[0], P.Command(pending.id, pending.text), size) ==>
      P.Command(pending.id, pending.text) in ls[|arounds|].delivered
  {
    hide TurnOf, Calm, ToSend, TurnsLeft;
    var command, n := P.Command(pending.id, pending.text), |arounds|;
    if n > 0 {
      CommandIsDelivered(ls[..n], arounds[..n - 1], size, pending);
      TurnSendsMore(ls[n - 1], size, arounds[n - 1], ls[n], pending);
    }
    LeftIsPositive(ls[n], command, size);
  }

  lemma LeftIsPositive(l: Link, command: P.Request, size: P.Request -> Size)
    ensures ToSend(l, command) ==> TurnsLeft(l, command, size) > 0
  {
  }

  // ------------------------------------------------------------ in the world ---

  /** What the link has delivered on its connection is what stands in that connection's inbox. */
  ghost predicate Matches(w: P.World, l: Link) {
    && l.h == w.handheld
    && (l.h.conn.Some? ==> l.h.conn.value < |w.bridge.conns| && w.bridge.conns[l.h.conn.value].inbox == l.delivered)
  }

  lemma StepMatches(w: P.World, l: Link, size: P.Request -> Size, step: LinkStep)
    requires Matches(w, l) && LinkEnabled(l.h, step) && FromTheNetwork(w, step)
    ensures P.Enabled(w, WorldStep(step)) && Matches(P.Apply(w, WorldStep(step)), LinkNext(l, size, step))
  {
    LinkStepIsWorldStep(w, step);
  }

  lemma {:induction false} StepsMatch(w: P.World, l: Link, size: P.Request -> Size, steps: seq<LinkStep>, z: P.World)
    requires Matches(w, l) && NetworkGives(w, steps) && LinkRuns(l.h, steps) && P.Reaches(w, WorldSteps(steps), z)
    ensures Matches(z, Ended(l, size, steps))
    decreases |steps|
  {
    hide Matches, LinkApply, P.Apply, P.Enabled, FromTheNetwork;
    if steps != [] {
      MatchingHandheld(w, l);
      StepMatches(w, l, size, steps[0]);
      assert WorldSteps(steps)[1..] == WorldSteps(steps[1..]);
      StepsMatch(P.Apply(w, WorldStep(steps[0])), LinkNext(l, size, steps[0]), size, steps[1..], z);
    }
  }

  lemma MatchingHandheld(w: P.World, l: Link)
    requires Matches(w, l)
    ensures l.h == w.handheld
  {
  }

  /** The steps that a turn of this link takes in the world. */
  ghost function StepsOf(l: Link, around: Surroundings): seq<P.Step> {
    WorldSteps(PumpSteps(l.h, l.unsent, l.ping, around))
  }

  /** After a turn the inbox is what the turn says has been delivered. */
  lemma TurnMatches(w: P.World, l: Link, size: P.Request -> Size, around: Surroundings, z: P.World)
    requires Matches(w, l) && NetworkIs(w, around) && HasConn(w) && P.Reaches(w, StepsOf(l, around), z)
    ensures Matches(z, TurnOf(l, size, around))
  {
    hide LinkRuns, Ended, NetworkIs, HasConn, SettledSteps, NetworkGives, P.OutputDrained, P.DropLink;
    GivesPump(w, l.unsent, l.ping, around);
    PumpIsARun(l.h, l.unsent, l.ping, around);
    if TakesPart(l, around) {
      assert PumpSteps(l.h, l.unsent, l.ping, around) == [];
    } else {
      StepsMatch(w, l, size, PumpSteps(l.h, l.unsent, l.ping, around), z);
    }
  }

  /** What happens between the turns: the bridge does as it likes, and the handheld handles the frame it holds. */
  predicate BetweenTurns(step: P.Step) {
    || step.NewSession? || step.Append? || step.Report? || step.Receive? || step.Flush? || step.Writable?
    || step.CloseConn? || step.Reply? || step.Execute? || step.Consume?
  }

  lemma HandlersKeepInbox(b: P.Bridge, c: P.Conn, session: P.SessionId, after: nat, id: string, writable: bool)
    ensures P.HandleHello(b, c, session, after, writable).inbox == c.inbox
    ensures P.HandlePing(c, writable).inbox == c.inbox
    ensures P.HandleCommand(b.exec, c, id, writable).1.inbox == c.inbox
    ensures P.FlushOne(b, c, writable).inbox == c.inbox
  {
    hide P.CursorRefused;
  }

  lemma ReceiveKeepsInboxes(b: P.Bridge, i: nat, writable: bool)
    requires i < |b.conns| && b.conns[i].processed < |b.conns[i].inbox|
    ensures var b' := P.ReceiveOn(b, i, writable);
      |b'.conns| == |b.conns| && forall j :: 0 <= j < |b.conns| ==> b'.conns[j].inbox == b.conns[j].inbox
  {
    hide P.HandleHello, P.HandlePing, P.HandleCommand, P.FlushOne;
    var c := b.conns[i].(processed := b.conns[i].processed + 1);
    match b.conns[i].inbox[b.conns[i].processed]
    case Hello(session, after) => HandlersKeepInbox(b, c, session, after, "", writable);
    case Ping => HandlersKeepInbox(b, c, "", 0, "", writable);
    case Command(id, _) => HandlersKeepInbox(b, c, "", 0, id, writable);
  }

  lemma BridgeKeepsInboxes(w: P.World, step: P.Step)
    requires P.Enabled(w, step) && BetweenTurns(step) && !step.Consume?
    ensures var z := P.Apply(w, step);
      && z.handheld == w.handheld && |z.bridge.conns| == |w.bridge.conns|
      && forall i :: 0 <= i < |w.bridge.conns| ==> z.bridge.conns[i].inbox == w.bridge.conns[i].inbox
  {
    hide P.ReceiveOn, P.FlushOne, P.HandleHello, P.HandlePing, P.HandleCommand, P.AppendTo;
    match step
    case Receive(i, writable) => ReceiveKeepsInboxes(w.bridge, i, writable);
    case Flush(i, writable) => HandlersKeepInbox(w.bridge, w.bridge.conns[i], "", 0, "", writable);
    case Append(_, _, _) => AppendKeepsConns(w.bridge, step.session, step.payload, step.evicted);
    case _ =>
  }

  lemma AppendKeepsConns(b: P.Bridge, session: P.SessionId, payload: P.Payload, evicted: nat)
    ensures P.AppendTo(b, session, payload, evicted).conns == b.conns
  {
  }

  /** Handling a frame may release the pending command; otherwise the command and its flag stay. */
  ghost predicate SameOrReleased(h: P.Handheld, g: P.Handheld) {
    (g.pending == h.pending && g.sent == h.sent) || (h.pending.Some? && g.pending.None?)
  }

  lemma CalmStep(w: P.World, l: Link, step: P.Step)
    requires Matches(w, l) && P.Enabled(w, step) && BetweenTurns(step)
    ensures var g := P.Apply(w, step).handheld;
      && Matches(P.Apply(w, step), l.(h := g))
      && g.phase == l.h.phase && g.output == l.h.output && SameOrReleased(l.h, g)
  {
    if !step.Consume? {
      hide P.Apply;
      BridgeKeepsInboxes(w, step);
    }
  }

  lemma {:induction false} CalmSteps(w: P.World, l: Link, steps: seq<P.Step>, z: P.World)
    requires Matches(w, l) && P.Reaches(w, steps, z) && forall k :: 0 <= k < |steps| ==> BetweenTurns(steps[k])
    ensures Matches(z, l.(h := z.handheld)) && Calm(l, l.(h := z.handheld))
    ensures SameOrReleased(l.h, z.handheld)
    decreases |steps|
  {
    hide P.Apply, P.Enabled, BetweenTurns, Matches;
    if steps != [] {
      CalmStep(w, l, steps[0]);
      var m := P.Apply(w, steps[0]);
      CalmSteps(m, l.(h := m.handheld), steps[1..], z);
    } else {
      MatchingHandheld(w, l);
    }
  }

  /** A stretch of the main loop in the world: turns of the link, and between them whatever happens there. */
  ghost predicate Loop(ws: seq<P.World>, ms: seq<P.World>, between: seq<seq<P.Step>>, ls: seq<Link>, arounds: seq<Surroundings>,
                       size: P.Request -> Size) {
    && |ws| == |ls| == |arounds| + 1 && |ms| == |between| == |arounds|
    && Matches(ws[0], ls[0])
    && forall k :: 0 <= k < |arounds| ==> LoopStep(ws[k], ms[k], between[k], ws[k + 1], ls[k], ls[k + 1], arounds[k], size)
  }

  ghost predicate LoopStep(w: P.World, m: P.World, between: seq<P.Step>, z: P.World, l: Link, r: Link, around: Surroundings,
                           size: P.Request -> Size) {
    && NetworkIs(w, around) && HasConn(w) && P.Reaches(w, StepsOf(l, around), m)
    && P.Reaches(m, between, z) && (forall k :: 0 <= k < |between| ==> BetweenTurns(between[k]))
    && r == TurnOf(l, size, around).(h := z.handheld)
  }

  lemma LoopStepIsTurn(w: P.World, m: P.World, between: seq<P.Step>, z: P.World, l: Link, r: Link, around: Surroundings,
                       size: P.Request -> Size)
    requires Matches(w, l) && LoopStep(w, m, between, z, l, r, around, size)
    ensures Matches(z, r) && Calm(TurnOf(l, size, around), r)
  {
    hide TurnOf, NetworkIs, HasConn, P.Reaches, Matches, Calm, BetweenTurns;
    TurnMatches(w, l, size, around, m);
    CalmSteps(m, TurnOf(l, size, around), between, z);
  }

  lemma {:induction false} LoopIsTurns(ws: seq<P.World>, ms: seq<P.World>, between: seq<seq<P.Step>>, ls: seq<Link>,
                                       arounds: seq<Surroundings>, size: P.Request -> Size, n: nat)
    requires Loop(ws, ms, between, ls, arounds, size) && n <= |arounds|
    ensures Matches(ws[n], ls[n]) && forall k :: 0 <= k < n ==> Calm(TurnOf(ls[k], size, arounds[k]), ls[k + 1])
  {
    hide LoopStep, TurnOf, Matches, Calm;
    if n > 0 {
      LoopIsTurns(ws, ms, between, ls, arounds, size, n - 1);
      LoopStepIsTurn(ws[n - 1], ms[n - 1], between[n - 1], ws[n], ls[n - 1], ls[n], arounds[n - 1], size);
    }
  }

  /**
   In the world: while the link is up and the socket takes at least a byte a turn, a pending command that is free to
   go stands in the inbox of the connection after as many turns as it has bytes left, and one more to be offered.
   */
  lemma CommandReachesTheBridge(ws: seq<P.World>, ms: seq<P.World>, between: seq<seq<P.Step>>, ls: seq<Link>,
                                arounds: seq<Surroundings>, size: P.Request -> Size, pending: P.Pending)
    requires Loop(ws, ms, between, ls, arounds, size) && StaysUp(ls, arounds, pending)
    requires ToSend(ls[0], P.Command(pending.id, pending.text))
    requires |arounds| >= TurnsLeft(ls[0], P.Command(pending.id, pending.text), size)
    requires HasConn(ws[|arounds|])
    ensures var w := ws[|arounds|];
      && w.handheld.conn.Some? && w.handheld.conn.value < |w.bridge.conns|
      && P.Command(pending.id, pending.text) in w.bridge.conns[w.handheld.conn.value].inbox
  {
    hide LoopStep, TurnOf, Calm, ToSend, TurnsLeft;
    LoopIsTurns(ws, ms, between, ls, arounds, size, |arounds|);
    CommandIsDelivered(ls, arounds, size, pending);
  }

  /** In every run, an unsent command of a ready link is free to go unless it was queued while something else was being sent. */
  lemma UnsentIsFreeToGo(capacity: nat, view: SessionId, w: P.World, l: Link)
    requires capacity > 0 && P.Reachable(capacity, view, w) && Matches(w, l) && (l.h.output.Some? ==> l.unsent > 0)
    requires l.h.phase == P.IsReady && l.h.pending.Some? && !l.h.sent && !l.h.crossed
    ensures ToSend(l, P.Command(l.h.pending.value.id, l.h.pending.value.text))
  {
    hide PushCommands.ExecOk, PushCommands.InboxOk, PushCommands.AnswersOk, PushCommands.Carries, PushCommands.Done;
    PushCommands.ReachableInv(capacity, view, w);
  }
}

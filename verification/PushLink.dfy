/** The handheld's push link and the session on its screen, as the fields its main loop updates. */
module PushLink {
  import opened Options
  import opened CommandRegistry
  import Fake = FakeAgent
  import P = PushProtocol
  import PushDelivery

  type SessionId = string

  // ------------------------------------------- one turn of the main loop ---

  datatype Connect = Refused | InProgress | Complete
  datatype Readiness = NotYet | Ready | Broken
  datatype Sent = SendFailed | Accepted(bytes: nat)
  datatype Arrival = Nothing | Overflow | ConnectionClosed | Arrived(frame: P.Frame)

  /** What the clock and the network do during one turn; newConn is the connection that a connect would make. */
  datatype Surroundings = Surroundings(
    reconnectDue: bool,
    connect: Connect,
    deadlineExpired: bool,
    socket: Readiness,
    newConn: nat,
    sent: Sent,
    heartbeatLost: bool,
    quiet: bool,
    arrival: Arrival)

  /** The steps of the protocol machine that only the link takes part in, with what they take from outside. */
  datatype LinkStep =
    | BeginConnect
    | Connected(conn: nat)
    | Drain
    | OfferCommand
    | OfferPing
    | Extract(frame: P.Frame)
    | Drop

  predicate LinkEnabled(h: P.Handheld, step: LinkStep) {
    match step
    case BeginConnect => h.phase == P.Retrying
    case Connected(_) => h.phase == P.Connecting
    case Drain => h.output.Some?
    case OfferCommand => h.phase == P.IsReady && h.output.None? && h.pending.Some? && !h.sent
    case OfferPing => h.phase == P.IsReady && h.output.None? && !(h.pending.Some? && !h.sent)
    case Extract(_) => h.phase in {P.WaitingReady, P.IsReady} && h.held.None?
    case Drop => h.phase !in {P.Stopped, P.Retrying}
  }

  function LinkApply(h: P.Handheld, step: LinkStep): P.Handheld
    requires LinkEnabled(h, step)
  {
    match step
    case BeginConnect => h.(phase := P.Connecting)
    case Connected(conn) =>
      h.(phase := P.SendingHello, conn := Some(conn), received := 0, output := Some(P.Hello(h.link, h.cursor)))
    case Drain => P.OutputDrained(h)
    case OfferCommand => h.(output := Some(P.Command(h.pending.value.id, h.pending.value.text)))
    case OfferPing => h.(output := Some(P.Ping))
    case Extract(frame) => P.ExtractFrame(h, frame)
    case Drop => P.DropLink(h)
  }

  predicate LinkRuns(h: P.Handheld, steps: seq<LinkStep>)
    decreases |steps|
  {
    steps == [] || (LinkEnabled(h, steps[0]) && LinkRuns(LinkApply(h, steps[0]), steps[1..]))
  }

  function After(h: P.Handheld, steps: seq<LinkStep>): P.Handheld
    requires LinkRuns(h, steps)
    decreases |steps|
  {
    if steps == [] then h else After(LinkApply(h, steps[0]), steps[1..])
  }

  lemma RunFrom(h: P.Handheld, step: LinkStep, steps: seq<LinkStep>)
    requires LinkEnabled(h, step) && LinkRuns(LinkApply(h, step), steps)
    ensures LinkRuns(h, [step] + steps) && After(h, [step] + steps) == After(LinkApply(h, step), steps)
  {
    assert ([step] + steps)[1..] == steps;
  }

  lemma RunNowhere(h: P.Handheld)
    ensures LinkRuns(h, []) && After(h, []) == h
  {
  }

  lemma RunOne(h: P.Handheld, step: LinkStep)
    requires LinkEnabled(h, step)
    ensures LinkRuns(h, [step]) && After(h, [step]) == LinkApply(h, step)
  {
    RunNowhere(LinkApply(h, step));
    RunFrom(h, step, []);
    assert [step] + [] == [step];
  }

  function WorldStep(step: LinkStep): P.Step {
    match step
    case BeginConnect => P.BeginConnect
    case Connected(_) => P.Connected
    case Drain => P.Drain
    case OfferCommand => P.OfferCommand
    case OfferPing => P.OfferPing
    case Extract(_) => P.Extract
    case Drop => P.Drop
  }

  /** The network hands the link the connection and the frame that the machine says are next. */
  predicate FromTheNetwork(w: P.World, step: LinkStep) {
    var h, conns := w.handheld, w.bridge.conns;
    match step
    case Connected(conn) => conn == |conns|
    case Drain => h.conn.Some? && h.conn.value < |conns|
    case Extract(frame) =>
      && h.conn.Some? && h.conn.value < |conns|
      && h.received < |conns[h.conn.value].out| && frame == conns[h.conn.value].out[h.received]
    case _ => true
  }

  /** Each link step is the handheld's part of a step of the protocol machine. */
  lemma LinkStepIsWorldStep(w: P.World, step: LinkStep)
    requires LinkEnabled(w.handheld, step) && FromTheNetwork(w, step)
    ensures P.Enabled(w, WorldStep(step))
    ensures P.Apply(w, WorldStep(step)).handheld == LinkApply(w.handheld, step)
  {
  }

  /** pump_push_receive: a frame waiting to be handled holds everything up. */
  function ReceiveSteps(h: P.Handheld, around: Surroundings): seq<LinkStep> {
    if h.held.Some? then []
    else
      match around.arrival
      case Nothing => []
      case Overflow => [Drop]
      case ConnectionClosed => [Drop]
      case Arrived(frame) => [Extract(frame)]
  }

  /** The part of a turn after the output buffer is empty or was so already. */
  function SettledSteps(h: P.Handheld, pingOutstanding: bool, around: Surroundings): seq<LinkStep> {
    if h.phase == P.WaitingReady then
      if around.deadlineExpired then [Drop] else ReceiveSteps(h, around)
    else if h.phase != P.IsReady then []
    else if around.heartbeatLost then [Drop]
    else if h.output.None? && h.pending.Some? && !h.sent then [OfferCommand] + ReceiveSteps(h, around)
    else if h.output.None? && !pingOutstanding && around.quiet then [OfferPing] + ReceiveSteps(h, around)
    else ReceiveSteps(h, around)
  }

  /** pump_push; unsent is how many bytes of the output are still to be sent. */
  function PumpSteps(h: P.Handheld, unsent: nat, pingOutstanding: bool, around: Surroundings): seq<LinkStep> {
    match h.phase
    case Stopped => []
    case Retrying =>
      if !around.reconnectDue then []
      else [BeginConnect] + (match around.connect
                             case Refused => [Drop]
                             case InProgress => []
                             case Complete => [Connected(around.newConn)])
    case Connecting =>
      if around.deadlineExpired || around.socket == Broken then [Drop]
      else if around.socket == NotYet then []
      else [Connected(around.newConn)]
    case _ =>
      if h.output.None? then SettledSteps(h, pingOutstanding, around)
      else
        match around.sent
        case SendFailed => [Drop]
        case Accepted(bytes) =>
          if bytes < unsent then [] else [Drain] + SettledSteps(P.OutputDrained(h), pingOutstanding, around)
  }

  lemma ReceiveIsARun(h: P.Handheld, around: Surroundings)
    requires h.phase in {P.WaitingReady, P.IsReady}
    ensures LinkRuns(h, ReceiveSteps(h, around))
  {
    hide LinkApply, LinkRuns;
    var steps := ReceiveSteps(h, around);
    if steps == [] {
      RunNowhere(h);
    } else {
      RunOne(h, steps[0]);
    }
  }

  lemma SettledIsARun(h: P.Handheld, pingOutstanding: bool, around: Surroundings)
    ensures LinkRuns(h, SettledSteps(h, pingOutstanding, around))
  {
    hide LinkRuns, ReceiveSteps, P.DropLink;
    RunNowhere(h);
    if h.phase in {P.WaitingReady, P.IsReady} {
      RunOne(h, Drop);
      ReceiveIsARun(h, around);
    }
    if h.phase == P.IsReady && h.output.None? {
      var offer := if h.pending.Some? && !h.sent then OfferCommand else OfferPing;
      ReceiveIsARun(LinkApply(h, offer), around);
      RunFrom(h, offer, ReceiveSteps(LinkApply(h, offer), around));
      assert ReceiveSteps(LinkApply(h, offer), around) == ReceiveSteps(h, around) by { ReceiveIgnoresOutput(h, offer, around); }
    }
  }

  lemma ReceiveIgnoresOutput(h: P.Handheld, offer: LinkStep, around: Surroundings)
    requires (offer == OfferCommand || offer == OfferPing) && LinkEnabled(h, offer)
    ensures ReceiveSteps(LinkApply(h, offer), around) == ReceiveSteps(h, around)
  {
  }

  /** Every turn of the main loop is a run of the protocol machine. */
  lemma PumpIsARun(h: P.Handheld, unsent: nat, pingOutstanding: bool, around: Surroundings)
    ensures LinkRuns(h, PumpSteps(h, unsent, pingOutstanding, around))
  {
    hide LinkRuns, SettledSteps, P.OutputDrained, P.DropLink;
    RunNowhere(h);
    match h.phase
    case Stopped =>
    case Retrying =>
      var connecting := h.(phase := P.Connecting);
      RunNowhere(connecting);
      RunOne(connecting, Drop);
      RunOne(connecting, Connected(around.newConn));
      var steps := PumpSteps(h, unsent, pingOutstanding, around);
      if around.reconnectDue {
        RunFrom(h, BeginConnect, steps[1..]);
        assert steps == [BeginConnect] + steps[1..];
      }
    case Connecting =>
      RunOne(h, Drop);
      RunOne(h, Connected(around.newConn));
    case _ =>
      RunOne(h, Drop);
      SettledIsARun(h, pingOutstanding, around);
      if h.output.Some? {
        SettledIsARun(P.OutputDrained(h), pingOutstanding, around);
        RunFrom(h, Drain, SettledSteps(P.OutputDrained(h), pingOutstanding, around));
      }
  }

  // ------------------------------------------------- a turn in the whole world ---

  function WorldSteps(steps: seq<LinkStep>): seq<P.Step> {
    if steps == [] then [] else [WorldStep(steps[0])] + WorldSteps(steps[1..])
  }

  /** Each of these steps finds the network as it says. */
  ghost predicate NetworkGives(w: P.World, steps: seq<LinkStep>)
    decreases |steps|
  {
    steps != [] ==>
      && LinkEnabled(w.handheld, steps[0]) && FromTheNetwork(w, steps[0])
      && P.Enabled(w, WorldStep(steps[0])) && NetworkGives(P.Apply(w, WorldStep(steps[0])), steps[1..])
  }

  lemma {:induction false} RunsInWorld(w: P.World, steps: seq<LinkStep>) returns (z: P.World)
    requires NetworkGives(w, steps) && LinkRuns(w.handheld, steps)
    ensures P.Reaches(w, WorldSteps(steps), z) && z.handheld == After(w.handheld, steps)
    decreases |steps|
  {
    hide LinkApply, P.Apply, P.Enabled, FromTheNetwork;
    if steps == [] {
      z := w;
    } else {
      LinkStepIsWorldStep(w, steps[0]);
      var m := P.Apply(w, WorldStep(steps[0]));
      z := RunsInWorld(m, steps[1..]);
      assert WorldSteps(steps)[1..] == WorldSteps(steps[1..]);
    }
  }

  /** A new connection is the next one, what arrives is the next frame, and what is sent has a connection to go to. */
  ghost predicate NetworkIs(w: P.World, around: Surroundings) {
    var h, conns := w.handheld, w.bridge.conns;
    && around.newConn == |conns|
    && (h.output.Some? ==> h.conn.Some? && h.conn.value < |conns|)
    && (around.arrival.Arrived? ==>
        && h.conn.Some? && h.conn.value < |conns| && h.received < |conns[h.conn.value].out|
        && around.arrival.frame == conns[h.conn.value].out[h.received])
  }

  lemma GivesNothing(w: P.World)
    ensures NetworkGives(w, [])
  {
  }

  lemma GivesFirst(w: P.World, step: LinkStep, steps: seq<LinkStep>)
    requires LinkEnabled(w.handheld, step) && FromTheNetwork(w, step)
    requires P.Enabled(w, WorldStep(step)) ==> NetworkGives(P.Apply(w, WorldStep(step)), steps)
    ensures NetworkGives(w, [step] + steps)
  {
    hide LinkApply, P.Apply, P.Enabled, FromTheNetwork;
    LinkStepIsWorldStep(w, step);
    assert ([step] + steps)[1..] == steps;
  }

  lemma GivesOne(w: P.World, step: LinkStep)
    requires LinkEnabled(w.handheld, step) && FromTheNetwork(w, step)
    ensures NetworkGives(w, [step])
  {
    hide NetworkGives, LinkApply, P.Apply, P.Enabled, FromTheNetwork;
    LinkStepIsWorldStep(w, step);
    GivesNothing(P.Apply(w, WorldStep(step)));
    GivesFirst(w, step, []);
    assert [step] + [] == [step];
  }

  lemma GivesReceive(w: P.World, around: Surroundings)
    requires NetworkIs(w, around) && w.handheld.phase in {P.WaitingReady, P.IsReady}
    ensures NetworkGives(w, ReceiveSteps(w.handheld, around))
  {
    hide NetworkGives;
    var steps := ReceiveSteps(w.handheld, around);
    if steps == [] {
      GivesNothing(w);
    } else {
      GivesOne(w, steps[0]);
    }
  }

  /** Offering and draining change neither what has been received nor what may come. */
  lemma StaysNetwork(w: P.World, step: LinkStep, around: Surroundings)
    requires NetworkIs(w, around) && (step.OfferCommand? || step.OfferPing? || step.Drain?) && LinkEnabled(w.handheld, step)
    requires step.Drain? || (w.handheld.conn.Some? && w.handheld.conn.value < |w.bridge.conns|)
    ensures P.Enabled(w, WorldStep(step)) && NetworkIs(P.Apply(w, WorldStep(step)), around) && FromTheNetwork(w, step)
    ensures P.Apply(w, WorldStep(step)).handheld == LinkApply(w.handheld, step)
  {
  }

  /** While the link is past its hello, it has a connection. */
  ghost predicate HasConn(w: P.World) {
    w.handheld.phase in {P.WaitingReady, P.IsReady} ==> w.handheld.conn.Some? && w.handheld.conn.value < |w.bridge.conns|
  }

  lemma GivesSettled(w: P.World, pingOutstanding: bool, around: Surroundings)
    requires NetworkIs(w, around) && HasConn(w)
    ensures NetworkGives(w, SettledSteps(w.handheld, pingOutstanding, around))
  {
    hide NetworkGives, ReceiveSteps, NetworkIs, P.Apply, P.Enabled, P.DropLink;
    var h := w.handheld;
    GivesNothing(w);
    if h.phase in {P.WaitingReady, P.IsReady} {
      GivesOne(w, Drop);
      GivesReceive(w, around);
    }
    if h.phase == P.IsReady && h.output.None? {
      var offer := if h.pending.Some? && !h.sent then OfferCommand else OfferPing;
      StaysNetwork(w, offer, around);
      ReceiveIgnoresOutput(h, offer, around);
      GivesReceive(P.Apply(w, WorldStep(offer)), around);
      GivesFirst(w, offer, ReceiveSteps(h, around));
    }
  }

  lemma GivesConnect(w: P.World, around: Surroundings, next: LinkStep)
    requires NetworkIs(w, around) && w.handheld.phase == P.Retrying && (next == Drop || next == Connected(around.newConn))
    ensures NetworkGives(w, [BeginConnect]) && NetworkGives(w, [BeginConnect] + [next])
  {
    hide NetworkGives;
    GivesOne(w, BeginConnect);
    GivesOne(P.Apply(w, P.BeginConnect), next);
    GivesFirst(w, BeginConnect, [next]);
  }

  lemma GivesPump(w: P.World, unsent: nat, pingOutstanding: bool, around: Surroundings)
    requires NetworkIs(w, around) && HasConn(w)
    ensures NetworkGives(w, PumpSteps(w.handheld, unsent, pingOutstanding, around))
  {
    hide NetworkGives, SettledSteps, NetworkIs, P.Apply, P.OutputDrained, P.DropLink;
    var h := w.handheld;
    GivesNothing(w);
    match h.phase
    case Stopped =>
    case Retrying =>
      GivesConnect(w, around, Drop);
      GivesConnect(w, around, Connected(around.newConn));
      assert [BeginConnect] + [] == [BeginConnect];
    case Connecting =>
      GivesOne(w, Drop);
      NextConn(w, around);
      GivesOne(w, Connected(around.newConn));
    case _ =>
      GivesOne(w, Drop);
      GivesSettled(w, pingOutstanding, around);
      if h.output.Some? {
        StaysNetwork(w, Drain, around);
        DrainKeepsConn(w, around);
        GivesSettled(P.Apply(w, P.Drain), pingOutstanding, around);
        GivesFirst(w, Drain, SettledSteps(P.OutputDrained(h), pingOutstanding, around));
      }
  }

  lemma NextConn(w: P.World, around: Surroundings)
    requires NetworkIs(w, around)
    ensures FromTheNetwork(w, Connected(around.newConn))
  {
  }

  lemma DrainKeepsConn(w: P.World, around: Surroundings)
    requires NetworkIs(w, around) && w.handheld.output.Some?
    ensures P.Enabled(w, P.Drain) && HasConn(P.Apply(w, P.Drain))
    ensures P.Apply(w, P.Drain).handheld == P.OutputDrained(w.handheld)
  {
  }

  /**
   In every world the protocol can reach, a whole turn of the main loop is a run of the protocol machine
   from there, if a connect makes the next connection and what arrives is that connection's next frame.
   */
  lemma TurnIsAWorldRun(capacity: nat, view: SessionId, w: P.World, unsent: nat, pingOutstanding: bool, around: Surroundings)
    returns (z: P.World)
    requires P.Reachable(capacity, view, w) && around.newConn == |w.bridge.conns|
    requires around.arrival.Arrived? ==>
      && w.handheld.conn.Some? && w.handheld.conn.value < |w.bridge.conns|
      && w.handheld.received < |w.bridge.conns[w.handheld.conn.value].out|
      && around.arrival.frame == w.bridge.conns[w.handheld.conn.value].out[w.handheld.received]
    ensures LinkRuns(w.handheld, PumpSteps(w.handheld, unsent, pingOutstanding, around))
    ensures z.handheld == After(w.handheld, PumpSteps(w.handheld, unsent, pingOutstanding, around))
    ensures P.Reaches(w, WorldSteps(PumpSteps(w.handheld, unsent, pingOutstanding, around)), z) && P.Reachable(capacity, view, z)
  {
    hide PumpSteps, LinkRuns, NetworkGives, P.Reaches, PushDelivery.ConnOk, PushDelivery.ViewOk, PushDelivery.Bound, PushDelivery.Pos;
    PushDelivery.ReachableInv(capacity, view, w);
    GivesPump(w, unsent, pingOutstanding, around);
    PumpIsARun(w.handheld, unsent, pingOutstanding, around);
    var steps := PumpSteps(w.handheld, unsent, pingOutstanding, around);
    z := RunsInWorld(w, steps);
    var before :| P.Reaches(P.Start(capacity, view), before, w);
    P.ReachesOn(P.Start(capacity, view), before, w, WorldSteps(steps), z);
  }

  // ------------------------------------------------------- bytes on the wire ---

  type Size = n: nat | n > 0 witness 1

  /**
   The link with the bytes it has in hand: how many of the output are still to be sent, whether a ping has not been
   answered, and which requests have been sent to their last byte on the current connection.
   */
  datatype Link = Link(h: P.Handheld, unsent: nat, ping: bool, delivered: seq<P.Request>)

  function LinkNext(l: Link, size: P.Request -> Size, step: LinkStep): Link
    requires LinkEnabled(l.h, step)
  {
    var h := LinkApply(l.h, step);
    match step
    case BeginConnect => l.(h := h)
    case Connected(_) => Link(h, size(h.output.value), l.ping, [])
    case Drain => Link(h, 0, l.ping, l.delivered + [l.h.output.value])
    case OfferCommand => l.(h := h, unsent := size(h.output.value))
    case OfferPing => l.(h := h, unsent := size(P.Ping), ping := true)
    case Extract(_) => l.(h := h, ping := false)
    case Drop => l.(h := h, unsent := 0, ping := false)
  }

  function Ended(l: Link, size: P.Request -> Size, steps: seq<LinkStep>): (end: Link)
    requires LinkRuns(l.h, steps)
    ensures end.h == After(l.h, steps)
    decreases |steps|
  {
    if steps == [] then l else Ended(LinkNext(l, size, steps[0]), size, steps[1..])
  }

  /** The socket takes a part of the output: nothing else happens in that turn. */
  predicate TakesPart(l: Link, around: Surroundings) {
    && l.h.phase !in {P.Stopped, P.Retrying, P.Connecting} && l.h.output.Some?
    && around.sent.Accepted? && around.sent.bytes < l.unsent
  }

  /** pump_push, with the bytes it sends. */
  function TurnOf(l: Link, size: P.Request -> Size, around: Surroundings): Link {
    PumpIsARun(l.h, l.unsent, l.ping, around);
    if TakesPart(l, around) then l.(unsent := l.unsent - around.sent.bytes)
    else Ended(l, size, PumpSteps(l.h, l.unsent, l.ping, around))
  }

  /** Seen by the protocol machine, a turn is the steps it takes. */
  lemma TurnTakesSteps(l: Link, size: P.Request -> Size, around: Surroundings)
    ensures LinkRuns(l.h, PumpSteps(l.h, l.unsent, l.ping, around))
    ensures TurnOf(l, size, around).h == After(l.h, PumpSteps(l.h, l.unsent, l.ping, around))
  {
    hide SettledSteps, LinkRuns, P.OutputDrained, P.DropLink;
    PumpIsARun(l.h, l.unsent, l.ping, around);
    RunNowhere(l.h);
  }

  lemma EndFrom(l: Link, size: P.Request -> Size, step: LinkStep, steps: seq<LinkStep>)
    requires LinkEnabled(l.h, step) && LinkRuns(LinkApply(l.h, step), steps)
    ensures LinkRuns(l.h, [step] + steps) && Ended(l, size, [step] + steps) == Ended(LinkNext(l, size, step), size, steps)
  {
    hide LinkApply;
    RunFrom(l.h, step, steps);
    assert ([step] + steps)[1..] == steps;
  }

  lemma EndNowhere(l: Link, size: P.Request -> Size)
    ensures LinkRuns(l.h, []) && Ended(l, size, []) == l
  {
  }

  lemma EndOne(l: Link, size: P.Request -> Size, step: LinkStep)
    requires LinkEnabled(l.h, step)
    ensures LinkRuns(l.h, [step]) && Ended(l, size, [step]) == LinkNext(l, size, step)
  {
    hide LinkApply;
    EndNowhere(LinkNext(l, size, step), size);
    EndFrom(l, size, step, []);
    assert [step] + [] == [step];
  }

  // ------------------------------------------------------------- the object ---

  class Handset {
    /** How many bytes a request takes on the wire. */
    const sizeOf: P.Request -> Size

    // push_connection
    var phase: P.Phase
    var link: SessionId
    var cursor: nat
    var output: Option<P.Request>
    var outputOffset: nat
    var frame: Option<P.Frame>
    var pending: Option<P.Pending>
    var sentOnConnection: bool
    var pingOutstanding: bool
    // the session on screen
    var view: SessionId
    var eventCursor: nat
    // what the machine records besides
    ghost var conn: Option<nat>
    ghost var received: nat
    ghost var applied: seq<P.Applied>
    ghost var crossed: bool
    /** The requests that the current connection has taken to the last byte. */
    ghost var delivered: seq<P.Request>

    ghost predicate Valid()
      reads this
    {
      output.Some? ==> outputOffset < sizeOf(output.value) && phase !in {P.Stopped, P.Retrying, P.Connecting}
    }

    function Unsent(): nat
      reads this
    {
      if output.Some? && outputOffset < sizeOf(output.value) then sizeOf(output.value) - outputOffset else 0
    }

    ghost function Abs(): P.Handheld
      reads this
    {
      P.Handheld(phase, link, cursor, output, frame, pending, sentOnConnection, conn, received, view, eventCursor, applied, crossed)
    }

    ghost function State(): Link
      reads this
    {
      Link(Abs(), Unsent(), pingOutstanding, delivered)
    }

    constructor (view: SessionId, sizeOf: P.Request -> Size)
      ensures Valid() && Abs() == P.Start(1, view).handheld && this.sizeOf == sizeOf
    {
      this.sizeOf, this.view := sizeOf, view;
      phase, link, cursor, output, outputOffset, frame, pending := P.Stopped, "", 0, None, 0, None, None;
      sentOnConnection, pingOutstanding, eventCursor := false, false, 0;
      conn, received, applied, crossed, delivered := None, 0, [], false, [];
    }

    /** Closing the socket, and all that is reset with it. */
    method ForgetConnection()
      modifies this`output, this`outputOffset, this`sentOnConnection, this`pingOutstanding
      modifies this`conn, this`received, this`crossed
      ensures output.None? && outputOffset == 0 && !sentOnConnection && !pingOutstanding
      ensures conn.None? && received == 0 && !crossed
    {
      output, outputOffset, sentOnConnection, pingOutstanding := None, 0, false, false;
      conn, received, crossed := None, 0, false;
    }

    /** network_push_stop */
    method Stop()
      requires Valid()
      modifies this
      ensures Valid() && Abs() == P.StopLink(old(Abs())) && !pingOutstanding
    {
      ForgetConnection();
      phase, link, cursor, frame, pending := P.Stopped, "", 0, None, None;
    }

    /** network_push_start */
    method Start(session: SessionId, after: nat)
      requires Valid()
      modifies this
      ensures Valid() && Abs() == P.StartLink(old(Abs()), session, after)
    {
      Stop();
      link, cursor, phase := session, after, P.Retrying;
    }

    /** push_schedule_reconnect */
    method ScheduleReconnect()
      requires Valid()
      modifies this
      ensures Valid() && State() == Link(P.DropLink(old(Abs())), 0, false, old(delivered))
    {
      ForgetConnection();
      phase := P.Retrying;
    }

    /** push_queue_command: refused while stopped and while another command is pending. */
    method QueueCommand(id: CommandId, text: string) returns (queued: bool)
      requires Valid()
      modifies this
      ensures Valid() && (queued <==> old(phase) != P.Stopped && old(pending).None?)
      ensures Abs() == if queued then
          old(Abs()).(pending := Some(P.Pending(id, text)), sent := false,
                      crossed := old(phase) == P.IsReady && old(output).Some?)
        else old(Abs())
    {
      if phase == P.Stopped || pending.Some? {
        return false;
      }
      pending, sentOnConnection := Some(P.Pending(id, text)), false;
      crossed := phase == P.IsReady && output.Some?;
      queued := true;
    }

    method ReleaseCommand()
      modifies this`pending, this`sentOnConnection, this`crossed
      ensures pending.None? && !sentOnConnection && !crossed
    {
      pending, sentOnConnection := None, false;
      crossed := false;
    }

    /** network_push_acknowledge */
    method Acknowledge(id: CommandId) returns (matched: bool)
      requires Valid()
      modifies this
      ensures Valid() && Abs() == P.Acknowledge(old(Abs()), id)
      ensures matched <==> old(pending).Some? && old(pending).value.id == id
    {
      if pending.Some? && pending.value.id == id {
        ReleaseCommand();
        return true;
      }
      return false;
    }

    /** push_build_hello */
    method BuildHello(ghost newConn: nat)
      requires Valid() && phase == P.Connecting
      modifies this`phase, this`output, this`outputOffset, this`conn, this`received, this`delivered
      ensures Valid() && Abs() == LinkApply(old(Abs()), Connected(newConn))
      ensures output.Some? && Unsent() == sizeOf(output.value) && delivered == []
    {
      phase := P.SendingHello;
      output, outputOffset := Some(P.Hello(link, cursor)), 0;
      conn, received, delivered := Some(newConn), 0, [];
    }

    /** push_extract_frame, once the receiver has the next line. */
    method ExtractFrame(next: P.Frame)
      requires Valid() && frame.None? && phase !in {P.Stopped, P.Retrying, P.Connecting}
      modifies this`frame, this`received, this`pingOutstanding, this`phase, this`pending, this`sentOnConnection, this`crossed
      ensures Valid() && Abs() == P.ExtractFrame(old(Abs()), next) && !pingOutstanding
    {
      frame := Some(next);
      received := received + 1;
      pingOutstanding := false;
      if P.LookOf(next) == P.LooksReady {
        phase := P.IsReady;
      } else if P.LookOf(next) == P.LooksError && phase == P.IsReady && sentOnConnection {
        ReleaseCommand();
      }
    }

    /** pump_push_receive */
    method PumpReceive(arrival: Arrival, ghost around: Surroundings)
      requires Valid() && phase in {P.WaitingReady, P.IsReady} && around.arrival == arrival
      requires LinkRuns(Abs(), ReceiveSteps(Abs(), around))
      modifies this
      ensures Valid() && State() == Ended(old(State()), sizeOf, ReceiveSteps(old(Abs()), around))
    {
      hide LinkRuns, Ended, P.ExtractFrame;
      EndNowhere(State(), sizeOf);
      if frame.Some? {
        return;
      }
      match arrival
      case Nothing =>
      case Overflow =>
        EndOne(State(), sizeOf, Drop);
        ScheduleReconnect();
      case ConnectionClosed =>
        EndOne(State(), sizeOf, Drop);
        ScheduleReconnect();
      case Arrived(next) =>
        EndOne(State(), sizeOf, Extract(next));
        ExtractFrame(next);
    }

    /** The rest of a turn once nothing of the output is left to send. */
    method PumpSettled(around: Surroundings)
      requires Valid()
      modifies this
      ensures LinkRuns(old(Abs()), SettledSteps(old(Abs()), old(pingOutstanding), around))
      ensures Valid() && State() == Ended(old(State()), sizeOf, SettledSteps(old(Abs()), old(pingOutstanding), around))
    {
      hide LinkRuns, Ended, ReceiveSteps, P.DropLink;
      ghost var l := State();
      SettledIsARun(l.h, pingOutstanding, around);
      EndNowhere(l, sizeOf);
      if phase == P.WaitingReady {
        EndOne(l, sizeOf, Drop);
        if around.deadlineExpired {
          ScheduleReconnect();
          return;
        }
        PumpReceive(around.arrival, around);
        return;
      }
      if phase != P.IsReady {
        return;
      }
      EndOne(l, sizeOf, Drop);
      if around.heartbeatLost {
        ScheduleReconnect();
        return;
      }
      OfferOutput(around);
    }

    /** The pending command has priority over a ping; then whatever has arrived is taken in. */
    method OfferOutput(around: Surroundings)
      requires Valid() && phase == P.IsReady && !around.heartbeatLost
      modifies this
      ensures LinkRuns(old(Abs()), SettledSteps(old(Abs()), old(pingOutstanding), around))
      ensures Valid() && State() == Ended(old(State()), sizeOf, SettledSteps(old(Abs()), old(pingOutstanding), around))
    {
      hide LinkRuns, Ended, ReceiveSteps;
      ghost var l, h := State(), Abs();
      SettledIsARun(h, pingOutstanding, around);
      if output.None? && pending.Some? && !sentOnConnection {
        output, outputOffset := Some(P.Command(pending.value.id, pending.value.text)), 0;
        ReceiveIgnoresOutput(h, OfferCommand, around);
        ReceiveIsARun(Abs(), around);
        EndFrom(l, sizeOf, OfferCommand, ReceiveSteps(Abs(), around));
      } else if output.None? && !pingOutstanding && around.quiet {
        output, outputOffset, pingOutstanding := Some(P.Ping), 0, true;
        ReceiveIgnoresOutput(h, OfferPing, around);
        ReceiveIsARun(Abs(), around);
        EndFrom(l, sizeOf, OfferPing, ReceiveSteps(Abs(), around));
      }
      ReceiveIsARun(Abs(), around);
      PumpReceive(around.arrival, around);
    }

    /** pump_push: one turn takes the protocol machine through exactly these steps, and sends exactly these bytes. */
    method Pump(around: Surroundings)
      requires Valid()
      modifies this
      ensures Valid() && State() == TurnOf(old(State()), sizeOf, around)
    {
      hide LinkRuns, Ended, SettledSteps, P.DropLink, P.OutputDrained;
      ghost var l := State();
      PumpIsARun(l.h, l.unsent, l.ping, around);
      EndNowhere(l, sizeOf);
      match phase
      case Stopped =>
      case Retrying => PumpConnect(around);
      case Connecting =>
        if around.deadlineExpired || around.socket == Broken {
          EndOne(l, sizeOf, Drop);
          ScheduleReconnect();
        } else if around.socket == Ready {
          EndOne(l, sizeOf, Connected(around.newConn));
          BuildHello(around.newConn);
        }
      case _ =>
        if output.Some? {
          PumpOutput(around);
        } else {
          PumpSettled(around);
        }
    }

    method PumpConnect(around: Surroundings)
      requires Valid() && phase == P.Retrying
      modifies this
      ensures LinkRuns(old(Abs()), PumpSteps(old(Abs()), old(Unsent()), old(pingOutstanding), around))
      ensures Valid() && State() == Ended(old(State()), sizeOf, PumpSteps(old(Abs()), old(Unsent()), old(pingOutstanding), around))
    {
      hide LinkRuns, Ended, P.DropLink;
      ghost var l := State();
      EndNowhere(l, sizeOf);
      if !around.reconnectDue {
        return;
      }
      phase := P.Connecting;
      ghost var g := State();
      EndNowhere(g, sizeOf);
      match around.connect
      case Refused =>
        EndOne(g, sizeOf, Drop);
        EndFrom(l, sizeOf, BeginConnect, [Drop]);
        ScheduleReconnect();
      case InProgress =>
        EndFrom(l, sizeOf, BeginConnect, []);
      case Complete =>
        EndOne(g, sizeOf, Connected(around.newConn));
        EndFrom(l, sizeOf, BeginConnect, [Connected(around.newConn)]);
        BuildHello(around.newConn);
    }

    /** The last byte of the output is gone. */
    method DrainOutput()
      requires Valid() && output.Some?
      modifies this`output, this`outputOffset, this`phase, this`sentOnConnection, this`delivered
      ensures Valid() && State() == LinkNext(old(State()), sizeOf, Drain)
    {
      delivered := delivered + [output.value];
      output, outputOffset := None, 0;
      if phase == P.SendingHello {
        phase := P.WaitingReady;
      } else if pending.Some? {
        sentOnConnection := true;
      }
    }

    /** A turn that begins with unsent output: only once its last byte is gone does the rest happen. */
    method PumpOutput(around: Surroundings)
      requires Valid() && output.Some?
      modifies this
      ensures Valid() && State() == TurnOf(old(State()), sizeOf, around)
    {
      hide LinkRuns, Ended, SettledSteps, P.DropLink, P.OutputDrained;
      ghost var l := State();
      PumpIsARun(l.h, l.unsent, l.ping, around);
      EndNowhere(l, sizeOf);
      EndOne(l, sizeOf, Drop);
      match around.sent
      case SendFailed => ScheduleReconnect();
      case Accepted(bytes) =>
        if bytes < sizeOf(output.value) - outputOffset {
          outputOffset := outputOffset + bytes;
          return;
        }
        ghost var g := LinkNext(l, sizeOf, Drain);
        DrainOutput();
        SettledIsARun(g.h, g.ping, around);
        EndFrom(l, sizeOf, Drain, SettledSteps(g.h, g.ping, around));
        PumpSettled(around);
    }

    /** handle_protocol_event, as far as the cursor goes. */
    method HandleProtocolEvent(sequence: nat, ghost payload: P.Payload)
      requires Valid()
      modifies this
      ensures Valid() && Abs() == P.ApplyEvent(old(Abs()), sequence, payload)
    {
      if sequence <= eventCursor {
        return;
      }
      eventCursor, cursor := sequence, sequence;
      applied := applied + [P.AppliedEvent(sequence, payload)];
    }

    /** apply_session_snapshot, as far as the cursor goes. */
    method ApplySessionSnapshot(lastSequence: nat, snapshot: Fake.Snapshot)
      requires Valid()
      modifies this
      ensures Valid() && Abs() == P.ApplyResync(old(Abs()), lastSequence, snapshot)
    {
      eventCursor, cursor := lastSequence, lastSequence;
      applied := applied + [P.AppliedResync(lastSequence, snapshot)];
    }

    /** The main loop's turn for a frame: handle_push_frame, then network_push_consume_frame. */
    method HandlePushFrame()
      requires Valid() && frame.Some?
      modifies this
      ensures Valid() && Abs() == P.ConsumeFrame(old(Abs()))
    {
      match frame.value {
        case EventFrame(sequence, payload) => HandleProtocolEvent(sequence, payload);
        case AckFrame(id) =>
          var _ := Acknowledge(id);
        case ResyncFrame(lastSequence, snapshot) => ApplySessionSnapshot(lastSequence, snapshot);
        case _ =>
      }
      frame := None;
    }

    /** attach_to_current_session */
    method AttachToSession(session: SessionId)
      requires Valid()
      modifies this
      ensures Valid()
      ensures Abs() == P.StartLink(old(Abs()).(view := session, eventCursor := 0, applied := []), session, 0)
    {
      view, eventCursor, applied := session, 0, [];
      Stop();
      RestartLink();
    }

    /** restart_push_link */
    method RestartLink()
      requires Valid()
      modifies this
      ensures Valid() && Abs() == P.StartLink(old(Abs()), old(view), old(eventCursor))
    {
      Start(view, eventCursor);
    }
  }
}

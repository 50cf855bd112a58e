/** What the handheld shows of a task, told by the last event that has a say in it. */
module TaskScreens {
  import opened Options
  import opened FakeAgent

  /** What an event makes of the shown state, of the turn being shown as active, and of the approval shown as pending. */
  function SaysState(event: Event): Option<SessionState> {
    match event
    case SessionUpdated(state) => Some(state)
    case _ => None
  }

  function SaysActive(event: Event): Option<bool> {
    match event
    case SessionUpdated(state) => Some(state != Idle)
    case TurnStarted(_) => Some(true)
    case ApprovalRequested(_) => Some(true)
    case TurnInterrupted(_) => Some(false)
    case TurnCompleted(_, _) => Some(false)
    case _ => None
  }

  function SaysPending(event: Event): Option<Option<ApprovalId>> {
    match event
    case ApprovalRequested(id) => Some(Some(id))
    case ApprovalResolved(_) => Some(None)
    case SessionUpdated(state) => if state == Idle then Some(None) else None
    case _ => None
  }

  /** The last event that says something, or what was shown before. */
  function Latest<T>(events: seq<Event>, says: Event -> Option<T>, before: T): T {
    if events == [] then before
    else if says(events[|events| - 1]).Some? then says(events[|events| - 1]).value
    else Latest(events[..|events| - 1], says, before)
  }

  /** The latest word is the word of the last event that has one. */
  lemma {:induction false} LatestIsLast<T>(events: seq<Event>, says: Event -> Option<T>, before: T, k: nat)
    requires k < |events| && says(events[k]).Some? && forall j :: k < j < |events| ==> says(events[j]).None?
    ensures Latest(events, says, before) == says(events[k]).value
  {
    if k < |events| - 1 {
      LatestIsLast(events[..|events| - 1], says, before, k);
    }
  }

  /** After any events in any order, each part of the screen shows what the last event that has a say in it says. */
  lemma {:induction false} ScreenShowsTheLatest(screen: Screen, events: seq<Event>)
    ensures ShownAll(screen, events)
         == Screen(Latest(events, (e: Event) => if SaysState(e).Some? then Some(SaysState(e)) else None, screen.agentState),
                   Latest(events, SaysActive, screen.turnActive),
                   Latest(events, SaysPending, screen.pendingApproval))
  {
    if events != [] {
      ScreenShowsTheLatest(screen, events[..|events| - 1]);
    }
  }

  /** A resync shows the same as an update to its state and the request or resolution of its approval, whatever came before. */
  lemma ResyncShowsTheSnapshot(screen: Screen, snapshot: Snapshot)
    requires snapshot.pendingApproval.Some? ==> snapshot.state != Idle
    ensures Resynced(screen, snapshot)
         == ShownAll(screen, [SessionUpdated(Idle), SessionUpdated(snapshot.state)]
                             + if snapshot.pendingApproval.Some? then [ApprovalRequested(snapshot.pendingApproval.value)] else [])
  {
    var two := [SessionUpdated(Idle), SessionUpdated(snapshot.state)];
    ShownPush(screen, [], SessionUpdated(Idle));
    ShownPush(screen, [SessionUpdated(Idle)], SessionUpdated(snapshot.state));
    assert [] + [SessionUpdated(Idle)] == [SessionUpdated(Idle)] && [SessionUpdated(Idle)] + [SessionUpdated(snapshot.state)] == two;
    if snapshot.pendingApproval.Some? {
      ShownPush(screen, two, ApprovalRequested(snapshot.pendingApproval.value));
    } else {
      assert two + [] == two;
    }
  }
}

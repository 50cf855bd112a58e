/**
 The requests that the bridge has open with its agent process. Whatever comes first, the response, the
 timeout, a failed write or the end of the client, settles a request, and nothing settles it again.
 */
module CodexRequests {
  datatype ClientState = NewClient | Starting | Ready | Closed | Failed

  datatype PendingRequest = PendingRequest(id: nat, name: string)

  datatype Outcome = Resolved | RemoteError | NoResult | TimedOut | WriteFailed | ClientGone

  datatype Settlement = Settlement(request: PendingRequest, outcome: Outcome)

  /** Where start() stands: not called, awaiting the initialize request, about to go on, or done. */
  datatype Startup = NotBegun | Awaiting(id: nat) | Answered(outcome: Outcome) | Over

  datatype StartResult = Begun | Joined | AlreadyStarted | Unavailable | SpawnFailed

  datatype RequestResult = Sent(id: nat) | NotReady | BadTimeout | LimitReached

  datatype ResponseId = Text | Number(value: int)

  predicate Ended(state: ClientState) {
    state.Closed? || state.Failed?
  }

  ghost function Requests(settled: seq<Settlement>): (requests: seq<PendingRequest>)
    ensures |requests| == |settled|
  {
    seq(|settled|, i requires 0 <= i < |settled| => settled[i].request)
  }

  /** Every request made, numbered from one, either waits or has been settled. */
  ghost predicate Accounted(issued: seq<PendingRequest>, pending: seq<PendingRequest>, settled: seq<Settlement>) {
    && (forall i :: 0 <= i < |issued| ==> issued[i].id == i + 1)
    && multiset(issued) == multiset(pending) + multiset(Requests(settled))
  }

  /** Where a request stands among the pending ones; their number if it is not there. */
  function Place(pending: seq<PendingRequest>, id: int): (k: nat)
    ensures k <= |pending| && (k < |pending| ==> pending[k].id == id)
    ensures forall j :: 0 <= j < k ==> pending[j].id != id
  {
    if pending == [] || pending[0].id == id then 0 else Place(pending[1..], id) + 1
  }

  function Without(pending: seq<PendingRequest>, k: nat): seq<PendingRequest>
    requires k < |pending|
  {
    pending[..k] + pending[k + 1..]
  }

  lemma RequestsPush(settled: seq<Settlement>, settlement: Settlement)
    ensures Requests(settled + [settlement]) == Requests(settled) + [settlement.request]
  {
  }

  lemma WithoutOne(pending: seq<PendingRequest>, k: nat)
    requires k < |pending|
    ensures multiset(pending) == multiset(Without(pending, k)) + multiset{pending[k]}
  {
    assert pending == pending[..k] + [pending[k]] + pending[k + 1..];
  }

  lemma SettlingAccounts(issued: seq<PendingRequest>, pending: seq<PendingRequest>, settled: seq<Settlement>, k: nat, outcome: Outcome)
    requires Accounted(issued, pending, settled) && k < |pending|
    ensures Accounted(issued, Without(pending, k), settled + [Settlement(pending[k], outcome)])
  {
    hide Requests, Without;
    RequestsPush(settled, Settlement(pending[k], outcome));
    WithoutOne(pending, k);
  }

  lemma IssuingAccounts(issued: seq<PendingRequest>, pending: seq<PendingRequest>, settled: seq<Settlement>, request: PendingRequest)
    requires Accounted(issued, pending, settled) && request.id == |issued| + 1
    ensures Accounted(issued + [request], pending + [request], settled)
  {
    hide Requests;
  }

  /** Two requests are never given the same number, so each occurs once. */
  lemma {:induction false} IssuedOnce(issued: seq<PendingRequest>, r: PendingRequest)
    requires (forall i :: 0 <= i < |issued| ==> issued[i].id == i + 1)
    ensures multiset(issued)[r] == if r in issued then 1 else 0
  {
    if issued == [] {
    } else {
      var front, last := issued[..|issued| - 1], issued[|issued| - 1];
      assert issued == front + [last];
      IssuedOnce(front, r);
    }
  }

  /** The settlements of one request. */
  ghost function Outcomes(settled: seq<Settlement>, r: PendingRequest): (n: nat) {
    multiset(Requests(settled))[r]
  }

  /** What the end of the client settles the pending requests with. */
  ghost function Failures(pending: seq<PendingRequest>): seq<Settlement> {
    seq(|pending|, i requires 0 <= i < |pending| => Settlement(pending[i], ClientGone))
  }

  /** start() goes on once its request is settled. */
  function Woken(startup: Startup, id: nat, outcome: Outcome): Startup {
    if startup == Awaiting(id) then Answered(outcome) else startup
  }

  lemma PlaceKept(pending: seq<PendingRequest>, k: nat, id: nat)
    requires k < |pending| && pending[k].id != id && Place(pending, id) < |pending|
    ensures Place(Without(pending, k), id) < |Without(pending, k)|
  {
    var j := Place(pending, id);
    assert Without(pending, k)[if j < k then j else j - 1] == pending[j];
  }

  lemma PlaceAfterIssue(pending: seq<PendingRequest>, request: PendingRequest, id: nat)
    requires Place(pending, id) < |pending| || request.id == id
    ensures Place(pending + [request], id) < |pending + [request]|
  {
    var j := Place(pending, id);
    assert (pending + [request])[j].id == id;
  }

  /** Where start() stands when the first i requests have been rejected. */
  ghost function WokenBelow(startup: Startup, pending: seq<PendingRequest>, i: nat): Startup {
    if startup.Awaiting? && Place(pending, startup.id) < i then Answered(ClientGone) else startup
  }

  lemma FailBegins(pending: seq<PendingRequest>)
    ensures pending[0..] == pending && Failures(pending[..0]) == []
  {
  }

  lemma FailStep(issued: seq<PendingRequest>, pending: seq<PendingRequest>, settled: seq<Settlement>, i: nat)
    requires i < |pending| && Accounted(issued, pending[i..], settled)
    ensures Accounted(issued, pending[i + 1..], settled + [Settlement(pending[i], ClientGone)])
    ensures Failures(pending[..i + 1]) == Failures(pending[..i]) + [Settlement(pending[i], ClientGone)]
  {
    hide Accounted;
    SettlingAccounts(issued, pending[i..], settled, 0, ClientGone);
    assert Without(pending[i..], 0) == pending[i + 1..];
  }

  lemma WokenStep(startup: Startup, pending: seq<PendingRequest>, i: nat)
    requires i < |pending|
    ensures WokenBelow(startup, pending, i + 1) == Woken(WokenBelow(startup, pending, i), pending[i].id, ClientGone)
  {
  }

  lemma RegroupSettled(a: seq<Settlement>, b: seq<Settlement>, c: seq<Settlement>)
    ensures a + b + c == a + (b + c)
  {
  }

  class RequestTable {
    const maximumPendingRequests: nat
    var state: ClientState
    /** In the order of insertion, as the source's map goes through them. */
    var pending: seq<PendingRequest>
    var nextRequestId: nat
    var startup: Startup
    /** Every request made and every one settled, in order. */
    ghost var issued: seq<PendingRequest>
    ghost var settled: seq<Settlement>

    ghost predicate Valid()
      reads this
    {
      && Accounted(issued, pending, settled) && nextRequestId == |issued| + 1
      && |pending| <= maximumPendingRequests && maximumPendingRequests > 0
      && (Ended(state) || state.NewClient? ==> pending == [])
      && (state.NewClient? ==> startup.NotBegun?)
      && (state.Ready? ==> startup.Over?)
      && (state.Starting? ==> startup.Awaiting? || startup.Answered?)
      && (startup.Awaiting? ==> Place(pending, startup.id) < |pending|)
    }

    constructor (maximumPendingRequests: nat)
      requires maximumPendingRequests > 0
      ensures Valid() && state.NewClient? && issued == [] && this.maximumPendingRequests == maximumPendingRequests
    {
      this.maximumPendingRequests := maximumPendingRequests;
      state, pending, nextRequestId, startup := NewClient, [], 1, NotBegun;
      issued, settled := [], [];
    }

    /** start(), up to its await of the initialize request; a second call joins the first. */
    method Start(spawned: bool, writable: bool) returns (result: StartResult)
      requires Valid()
      modifies this
      ensures Valid()
      ensures result == if old(state).Ready? then AlreadyStarted
                        else if old(startup).Awaiting? || old(startup).Answered? then Joined
                        else if !old(state).NewClient? then Unavailable
                        else if spawned then Begun else SpawnFailed
      ensures result.Begun? ==>
        && var request := PendingRequest(old(nextRequestId), "initialize");
        && state.Starting? && issued == old(issued) + [request]
        && (if writable then startup == Awaiting(request.id) && pending == [request] && settled == old(settled)
            else startup == Answered(WriteFailed) && pending == [] && settled == old(settled) + [Settlement(request, WriteFailed)])
      ensures result.SpawnFailed? ==> Unchanged(Failed, [], Over, old(issued), old(settled))
      ensures !result.Begun? && !result.SpawnFailed? ==> Unchanged(old(state), old(pending), old(startup), old(issued), old(settled))
    {
      hide Accounted, Place, Without;
      if state.Ready? {
        return AlreadyStarted;
      }
      if startup.Awaiting? || startup.Answered? {
        return Joined;
      }
      if !state.NewClient? {
        return Unavailable;
      }
      state := Starting;
      if !spawned {
        state, startup := Failed, Over;
        return SpawnFailed;
      }
      startup := Awaiting(nextRequestId);
      Issue("initialize", writable);
      result := Begun;
    }

    ghost predicate Unchanged(state: ClientState, pending: seq<PendingRequest>, startup: Startup,
                              issued: seq<PendingRequest>, settled: seq<Settlement>)
      reads this
    {
      && this.state == state && this.pending == pending && this.startup == startup
      && this.issued == issued && this.settled == settled
    }

    /** Gives the request the next number and has it wait, unless it cannot be written. */
    method Issue(name: string, writable: bool)
      requires Accounted(issued, pending, settled) && nextRequestId == |issued| + 1
      requires startup.Awaiting? ==> Place(pending, startup.id) < |pending| || startup.id == nextRequestId
      modifies this`pending, this`nextRequestId, this`startup, this`issued, this`settled
      ensures Accounted(issued, pending, settled) && nextRequestId == |issued| + 1
      ensures startup.Awaiting? ==> Place(pending, startup.id) < |pending|
      ensures var request := PendingRequest(old(nextRequestId), name);
        && issued == old(issued) + [request]
        && pending == (if writable then old(pending) + [request] else old(pending))
        && settled == (if writable then old(settled) else old(settled) + [Settlement(request, WriteFailed)])
        && startup == (if writable then old(startup) else Woken(old(startup), old(nextRequestId), WriteFailed))
    {
      var request := PendingRequest(nextRequestId, name);
      IssuingAccounts(issued, pending, settled, request);
      if startup.Awaiting? {
        PlaceAfterIssue(pending, request, startup.id);
      }
      nextRequestId := nextRequestId + 1;
      issued := issued + [request];
      pending := pending + [request];
      if !writable {
        Settle(|pending| - 1, WriteFailed);
      }
    }

    /** Takes one request off the table and tells its caller. */
    method Settle(k: nat, outcome: Outcome)
      requires k < |pending| && Accounted(issued, pending, settled)
      requires startup.Awaiting? ==> Place(pending, startup.id) < |pending|
      modifies this`pending, this`startup, this`settled
      ensures Accounted(issued, pending, settled)
      ensures startup.Awaiting? ==> Place(pending, startup.id) < |pending|
      ensures pending == Without(old(pending), k) && settled == old(settled) + [Settlement(old(pending)[k], outcome)]
      ensures startup == Woken(old(startup), old(pending)[k].id, outcome)
    {
      hide Accounted, Place, Without;
      SettlingAccounts(issued, pending, settled, k, outcome);
      if startup.Awaiting? && startup.id != pending[k].id {
        PlaceKept(pending, k, startup.id);
      }
      settled := settled + [Settlement(pending[k], outcome)];
      startup := Woken(startup, pending[k].id, outcome);
      pending := Without(pending, k);
    }

    /** request(): refused before anything is sent, or sent under a number of its own. */
    method Request(name: string, timeoutMs: int, writable: bool) returns (result: RequestResult)
      requires Valid()
      modifies this
      ensures Valid() && state == old(state)
      ensures result == if !old(state).Ready? then NotReady else if timeoutMs <= 0 then BadTimeout
                        else if |old(pending)| >= maximumPendingRequests then LimitReached else Sent(old(nextRequestId))
      ensures !result.Sent? ==> Unchanged(old(state), old(pending), old(startup), old(issued), old(settled))
      ensures result.Sent? ==> issued == old(issued) + [PendingRequest(result.id, name)] && startup == old(startup)
      ensures result.Sent? && writable ==> pending == old(pending) + [PendingRequest(result.id, name)] && settled == old(settled)
      ensures result.Sent? && !writable ==>
        pending == old(pending) && settled == old(settled) + [Settlement(PendingRequest(result.id, name), WriteFailed)]
    {
      if !state.Ready? {
        return NotReady;
      }
      if timeoutMs <= 0 {
        return BadTimeout;
      }
      if |pending| >= maximumPendingRequests {
        return LimitReached;
      }
      result := Sent(nextRequestId);
      Issue(name, writable);
    }

    /** A response settles the request with its number and no other; one to no such request is reported. */
    method DispatchResponse(id: ResponseId, remoteError: bool, hasResult: bool) returns (reported: bool)
      requires Valid()
      modifies this`pending, this`startup, this`settled
      ensures Valid()
      ensures reported <==> id.Text? || Place(old(pending), id.value) == |old(pending)|
      ensures reported ==> Unchanged(old(state), old(pending), old(startup), old(issued), old(settled))
      ensures !reported ==>
        && var k := Place(old(pending), id.value);
        && var outcome := if remoteError then RemoteError else if hasResult then Resolved else NoResult;
        && pending == Without(old(pending), k) && settled == old(settled) + [Settlement(old(pending)[k], outcome)]
        && startup == Woken(old(startup), old(pending)[k].id, outcome)
    {
      if id.Text? {
        return true;
      }
      var k := Place(pending, id.value);
      if k == |pending| {
        return true;
      }
      Settle(k, if remoteError then RemoteError else if hasResult then Resolved else NoResult);
      reported := false;
    }

    /** The timer of a request that still waits rejects it. */
    method Timeout(id: nat)
      requires Valid()
      modifies this`pending, this`startup, this`settled
      ensures Valid()
      ensures var k := Place(old(pending), id);
        if k == |old(pending)| then Unchanged(old(state), old(pending), old(startup), old(issued), old(settled)) else
          && pending == Without(old(pending), k) && settled == old(settled) + [Settlement(old(pending)[k], TimedOut)]
          && startup == Woken(old(startup), id, TimedOut)
    {
      var k := Place(pending, id);
      if k < |pending| {
        Settle(k, TimedOut);
      }
    }

    /** The end of the client: once, and with it of every request that waits. */
    method Fail(to: ClientState)
      requires Valid() && Ended(to)
      modifies this`state, this`pending, this`startup, this`settled
      ensures Valid() && Ended(state) && pending == []
      ensures old(Ended(state)) ==> Unchanged(old(state), old(pending), old(startup), old(issued), old(settled))
      ensures !old(Ended(state)) ==> state == to
      ensures settled == old(settled) + Failures(old(pending))
      ensures startup == if old(startup).Awaiting? then Answered(ClientGone) else old(startup)
    {
      if Ended(state) {
        assert Failures(pending) == [];
        return;
      }
      hide Accounted, Requests, Without, Place, Failures, Woken;
      state := to;
      FailBegins(pending);
      var i := 0;
      while i < |pending|
        invariant i <= |pending| && Accounted(issued, pending[i..], settled)
        invariant settled == old(settled) + Failures(pending[..i])
        invariant startup == WokenBelow(old(startup), pending, i)
        modifies this`settled, this`startup
      {
        FailStep(issued, pending, settled, i);
        WokenStep(old(startup), pending, i);
        RegroupSettled(old(settled), Failures(pending[..i]), [Settlement(pending[i], ClientGone)]);
        settled := settled + [Settlement(pending[i], ClientGone)];
        startup := Woken(startup, pending[i].id, ClientGone);
        i := i + 1;
      }
      assert pending[..i] == pending && pending[i..] == [];
      pending := [];
    }

    /**
     start() after its await: ready, if the answer was one and valid, and failed otherwise. It does not
     look at what has become of the client since the answer came.
     */
    method ResumeStart(valid: bool)
      requires Valid() && startup.Answered?
      modifies this`state, this`pending, this`startup, this`settled
      ensures Valid() && startup.Over?
      ensures state.Ready? <==> old(startup) == Answered(Resolved) && valid
      ensures state.Ready? ==> pending == old(pending) && settled == old(settled)
      ensures !state.Ready? ==>
        && state == (if old(Ended(state)) then old(state) else Failed)
        && pending == [] && settled == old(settled) + Failures(old(pending))
    {
      if startup.outcome == Resolved && valid {
        state, startup := Ready, Over;
      } else {
        Fail(Failed);
        startup := Over;
      }
    }

    /** At any time, a request has been settled once or it waits, never both and never twice. */
    lemma SettledAtMostOnce(r: PendingRequest)
      requires Valid() && r in issued
      ensures Outcomes(settled, r) <= 1 && (Outcomes(settled, r) == 0 <==> r in pending)
      ensures forall q :: q in issued && q.id == r.id ==> q == r
    {
      IssuedOnce(issued, r);
    }

    /** Once the client has ended, every request ever made has been settled exactly once. */
    lemma EndSettlesEveryRequest(r: PendingRequest)
      requires Valid() && Ended(state) && r in issued
      ensures Outcomes(settled, r) == 1
    {
      IssuedOnce(issued, r);
    }
  }

  /**
   An answer to initialize and a line over the limit in one chunk: the client fails, and comes back
   when start() goes on.
   */
  method FailedClientComesBack() returns (client: RequestTable, ghost before: ClientState, result: RequestResult)
    ensures before.Failed? && client.state.Ready? && result.Sent?
  {
    hide Accounted, Place, Without, Failures, Requests;
    client := new RequestTable(64);
    var started := client.Start(true, true);
    var reported := client.DispatchResponse(Number(1), false, true);
    client.Fail(Failed);
    before := client.state;
    client.ResumeStart(true);
    result := client.Request("thread/list", 15000, true);
  }
}

/**
 One channel of the relay: sockets of bridges and of clients that wait to be paired with one
 another. A socket is known by its place in the order in which sockets began to wait.
 */
module Relay {
  import opened Options

  type Socket = nat

  datatype Role = Uplink | Client

  datatype Pair = Pair(uplink: Socket, client: Socket)

  ghost predicate Ascending(sockets: seq<Socket>) {
    forall i, j :: 0 <= i < j < |sockets| ==> sockets[i] < sockets[j]
  }

  ghost predicate AnyLive(queue: seq<Socket>, destroyed: set<Socket>) {
    exists i :: 0 <= i < |queue| && queue[i] !in destroyed
  }

  /** One side of the pairs made, in the order made. */
  ghost function Taken(pairs: seq<Pair>, role: Role): (taken: seq<Socket>)
    ensures |taken| == |pairs|
  {
    seq(|pairs|, i requires 0 <= i < |pairs| => if role == Uplink then pairs[i].uplink else pairs[i].client)
  }

  /**
   The sockets of one side, those already paired and then those waiting, stand in order of arrival:
   so none is in two places, and none is paired before a live one that waited longer.
   */
  ghost predicate SideOk(role: Role, queue: seq<Socket>, pairs: seq<Pair>, roles: seq<Role>) {
    && Ascending(Taken(pairs, role) + queue)
    && (forall i :: 0 <= i < |queue| ==> queue[i] < |roles| && roles[queue[i]] == role)
    && (forall i :: 0 <= i < |pairs| ==> Taken(pairs, role)[i] < |roles| && roles[Taken(pairs, role)[i]] == role)
  }

  /** Dropping sockets from a queue, wherever they stood, leaves the rest in order. */
  ghost predicate IsPart(part: seq<Socket>, queue: seq<Socket>) {
    && |part| <= |queue| && Ascending(part)
    && forall i :: 0 <= i < |part| ==> part[i] in queue
  }

  lemma PartKeepsSide(role: Role, queue: seq<Socket>, part: seq<Socket>, pairs: seq<Pair>, roles: seq<Role>)
    requires SideOk(role, queue, pairs, roles) && IsPart(part, queue)
    ensures SideOk(role, part, pairs, roles)
  {
    var taken := Taken(pairs, role);
    forall i, j | 0 <= i < j < |taken + part|
      ensures (taken + part)[i] < (taken + part)[j]
    {
      if i < |taken| <= j {
        var k :| 0 <= k < |queue| && queue[k] == part[j - |taken|];
        assert (taken + queue)[i] < (taken + queue)[|taken| + k];
      } else if j < |taken| {
        assert (taken + queue)[i] < (taken + queue)[j];
      }
    }
  }

  lemma QueueAscends(role: Role, queue: seq<Socket>, pairs: seq<Pair>, roles: seq<Role>)
    requires SideOk(role, queue, pairs, roles)
    ensures Ascending(queue)
  {
    var taken := Taken(pairs, role);
    forall i, j | 0 <= i < j < |queue|
      ensures queue[i] < queue[j]
    {
      assert (taken + queue)[|taken| + i] < (taken + queue)[|taken| + j];
    }
  }

  lemma TakingKeepsSide(role: Role, queue: seq<Socket>, taken: Option<Socket>, rest: seq<Socket>, pairs: seq<Pair>,
                        roles: seq<Role>, pair: Pair, destroyed: set<Socket>)
    requires SideOk(role, queue, pairs, roles) && TookFirst(queue, taken, rest, destroyed)
    requires taken == Some(if role == Uplink then pair.uplink else pair.client)
    ensures SideOk(role, rest, pairs + [pair], roles)
  {
    var before, k := Taken(pairs, role), |queue| - |rest| - 1;
    var later := before + [queue[k]];
    assert Taken(pairs + [pair], role) == later;
    var after := later + rest;
    forall i, j | 0 <= i < j < |after|
      ensures after[i] < after[j]
    {
      var a, b := if i < |before| then i else i + k, if j < |before| then j else j + k;
      assert (before + queue)[a] < (before + queue)[b];
    }
  }

  lemma ArrivalKeepsSide(role: Role, queue: seq<Socket>, pairs: seq<Pair>, roles: seq<Role>)
    requires SideOk(role, queue, pairs, roles)
    ensures SideOk(role, queue + [|roles|], pairs, roles + [role])
  {
    var taken := Taken(pairs, role);
    assert taken + (queue + [|roles|]) == taken + queue + [|roles|];
    forall i | 0 <= i < |taken + queue|
      ensures (taken + queue)[i] < |roles|
    {
      assert i >= |taken| ==> (taken + queue)[i] == queue[i - |taken|];
    }
  }

  lemma RolesGrow(role: Role, queue: seq<Socket>, pairs: seq<Pair>, roles: seq<Role>, newcomer: Role)
    requires SideOk(role, queue, pairs, roles)
    ensures SideOk(role, queue, pairs, roles + [newcomer])
  {
  }

  /** Every live socket of a queue still waits, but for one. */
  ghost predicate LiveKept(before: seq<Socket>, after: seq<Socket>, destroyed: set<Socket>, except: Option<Socket>) {
    forall s :: s in before && s !in destroyed && Some(s) != except ==> s in after
  }

  /** The first live socket of a queue has been taken, and the dead ones before it dropped. */
  ghost predicate TookFirst(queue: seq<Socket>, taken: Option<Socket>, rest: seq<Socket>, destroyed: set<Socket>) {
    && |rest| <= |queue| && rest == queue[|queue| - |rest|..]
    && (taken.None? ==> rest == [] && !AnyLive(queue, destroyed))
    && (taken.Some? ==> |rest| < |queue| && taken.value == queue[|queue| - |rest| - 1] && taken.value !in destroyed)
    && forall i :: 0 <= i < |queue| - |rest| - 1 ==> queue[i] in destroyed
  }

  function PutBack(taken: Option<Socket>, rest: seq<Socket>): seq<Socket> {
    if taken.Some? then [taken.value] + rest else rest
  }

  class Channel {
    const maximum: nat
    var uplinks: seq<Socket>
    var clients: seq<Socket>
    /** Sockets that have been destroyed, whether or not their close event has come yet. */
    var destroyed: set<Socket>
    var closed: bool
    var arrivals: nat
    /** The role of every socket that ever waited, and every pair made. */
    ghost var roles: seq<Role>
    ghost var pairs: seq<Pair>

    ghost predicate Ordered()
      reads this
    {
      && |uplinks| <= maximum && |clients| <= maximum && arrivals == |roles|
      && (forall s :: s in destroyed ==> s < arrivals)
      && SideOk(Uplink, uplinks, pairs, roles) && SideOk(Client, clients, pairs, roles)
    }

    ghost predicate Valid()
      reads this
    {
      Ordered() && !(AnyLive(uplinks, destroyed) && AnyLive(clients, destroyed))
    }

    constructor (maximum: nat)
      ensures Valid() && pairs == [] && this.maximum == maximum
    {
      this.maximum := maximum;
      uplinks, clients, destroyed, closed, arrivals, roles, pairs := [], [], {}, false, 0, [], [];
    }

    /** #takeLive on one queue: shifts dead sockets away up to the first live one, which it takes. */
    static method TakeLive(queue: seq<Socket>, destroyed: set<Socket>) returns (taken: Option<Socket>, rest: seq<Socket>)
      ensures TookFirst(queue, taken, rest, destroyed)
    {
      rest := queue;
      while rest != []
        invariant |rest| <= |queue| && rest == queue[|queue| - |rest|..]
        invariant forall i :: 0 <= i < |queue| - |rest| ==> queue[i] in destroyed
        decreases |rest|
      {
        var entry := rest[0];
        rest := rest[1..];
        if entry !in destroyed {
          return Some(entry), rest;
        }
      }
      taken := None;
    }

    /** The queue of one role. */
    function Queue(role: Role): seq<Socket>
      reads this
    {
      if role == Uplink then uplinks else clients
    }

    /** #tryPair, called when a socket has just begun to wait. */
    method TryPair(ghost newcomer: Role)
      requires Ordered() && Queue(newcomer) != []
      requires !(AnyLive(Queue(newcomer)[..|Queue(newcomer)| - 1], destroyed) && AnyLive(Queue(Other(newcomer)), destroyed))
      modifies this`uplinks, this`clients, this`pairs
      ensures Valid()
      ensures if AnyLive(old(uplinks), destroyed) && AnyLive(old(clients), destroyed)
              then |pairs| == |old(pairs)| + 1 && pairs[..|old(pairs)|] == old(pairs)
                   && LiveKept(old(uplinks), uplinks, destroyed, Some(pairs[|old(pairs)|].uplink))
                   && LiveKept(old(clients), clients, destroyed, Some(pairs[|old(pairs)|].client))
              else
                   && pairs == old(pairs)
                   && LiveKept(old(uplinks), uplinks, destroyed, None) && LiveKept(old(clients), clients, destroyed, None)
    {
      hide SideOk, LiveKept, AnyLive, TookFirst, PutBack;
      var uplink, moreUplinks := TakeLive(uplinks, destroyed);
      var client, moreClients := TakeLive(clients, destroyed);
      TakeKeepsSide(Uplink, uplinks, uplink, moreUplinks, pairs, roles, destroyed);
      TakeKeepsSide(Client, clients, client, moreClients, pairs, roles, destroyed);
      if uplink.Some? && client.Some? {
        ghost var pair := Pair(uplink.value, client.value);
        if newcomer == Uplink {
          NothingLiveLeft(uplinks, uplink, moreUplinks, destroyed);
        } else {
          NothingLiveLeft(clients, client, moreClients, destroyed);
        }
        TakingKeepsSide(Uplink, uplinks, uplink, moreUplinks, pairs, roles, pair, destroyed);
        TakingKeepsSide(Client, clients, client, moreClients, pairs, roles, pair, destroyed);
        uplinks, clients := moreUplinks, moreClients;
        pairs := pairs + [pair];
      } else {
        uplinks := PutBack(uplink, moreUplinks);
        clients := PutBack(client, moreClients);
      }
    }

    /** A new socket joins the end of its queue. */
    method Arrive(role: Role)
      requires Valid() && |Queue(role)| < maximum
      modifies this`uplinks, this`clients, this`arrivals, this`roles
      ensures Ordered() && Queue(role) == old(Queue(role)) + [old(arrivals)] && Queue(Other(role)) == old(Queue(Other(role)))
      ensures old(arrivals) !in destroyed && arrivals == old(arrivals) + 1
    {
      hide SideOk, AnyLive;
      ArrivalKeepsSide(role, Queue(role), pairs, roles);
      RolesGrow(Other(role), Queue(Other(role)), pairs, roles, role);
      if role == Uplink {
        uplinks := uplinks + [arrivals];
      } else {
        clients := clients + [arrivals];
      }
      arrivals := arrivals + 1;
      roles := roles + [role];
    }

    /** #queue */
    method Enqueue(role: Role) returns (socket: Option<Socket>)
      requires Valid()
      modifies this
      ensures Valid() && old(pairs) <= pairs && |pairs| <= |old(pairs)| + 1
      ensures socket.Some? <==> !closed && |old(Queue(role))| < maximum
      ensures socket.None? ==> pairs == old(pairs) && uplinks == old(uplinks) && clients == old(clients)
      ensures destroyed == old(destroyed)
      ensures socket.Some? ==> arrivals == old(arrivals) + 1 && socket.value == old(arrivals)
      ensures socket.Some? && AnyLive(old(Queue(Other(role))), destroyed) ==>
                |pairs| == |old(pairs)| + 1
                && LiveKept(old(Queue(role)) + [socket.value], Queue(role), destroyed, Some(SideOf(pairs[|old(pairs)|], role)))
                && LiveKept(old(Queue(Other(role))), Queue(Other(role)), destroyed, Some(SideOf(pairs[|old(pairs)|], Other(role))))
      ensures socket.Some? && !AnyLive(old(Queue(Other(role))), destroyed) ==>
                pairs == old(pairs) && LiveKept(old(Queue(role)) + [socket.value], Queue(role), destroyed, None)
    {
      hide SideOk, LiveKept;
      if closed || |Queue(role)| >= maximum {
        return None;
      }
      ghost var before, others := Queue(role), Queue(Other(role));
      var entry := arrivals;
      socket := Some(entry);
      Arrive(role);
      assert Queue(role)[..|Queue(role)| - 1] == before;
      LastIsLive(Queue(role), entry, destroyed);
      TryPair(role);
    }

    /** A socket is destroyed, by whichever end. */
    method Destroy(socket: Socket)
      requires Valid() && socket < arrivals
      modifies this`destroyed
      ensures Valid() && destroyed == old(destroyed) + {socket}
    {
      destroyed := destroyed + {socket};
    }

    /** The close event of a waiting socket, and its waiting timer, which destroys it first. */
    method SocketClosed(socket: Socket)
      requires Valid() && socket < arrivals
      modifies this`uplinks, this`clients, this`destroyed
      ensures Valid() && socket !in uplinks && socket !in clients && pairs == old(pairs)
      ensures forall s :: s in old(uplinks) && s != socket ==> s in uplinks
      ensures forall s :: s in old(clients) && s != socket ==> s in clients
    {
      hide SideOk;
      destroyed := destroyed + {socket};
      QueueAscends(Uplink, uplinks, pairs, roles);
      QueueAscends(Client, clients, pairs, roles);
      var fewerUplinks := RemoveEntry(uplinks, socket);
      var fewerClients := RemoveEntry(clients, socket);
      PartKeepsSide(Uplink, uplinks, fewerUplinks, pairs, roles);
      PartKeepsSide(Client, clients, fewerClients, pairs, roles);
      uplinks, clients := fewerUplinks, fewerClients;
    }

    /** removeEntry */
    static method RemoveEntry(queue: seq<Socket>, entry: Socket) returns (rest: seq<Socket>)
      requires Ascending(queue)
      ensures IsPart(rest, queue) && entry !in rest
      ensures forall s :: s in queue && s != entry ==> s in rest
    {
      var index := 0;
      while index < |queue| && queue[index] != entry
        invariant index <= |queue| && entry !in queue[..index]
      {
        index := index + 1;
      }
      if index == |queue| {
        return queue;
      }
      rest := queue[..index] + queue[index + 1..];
    }

    /** close() */
    method Close()
      requires Valid()
      modifies this
      ensures Valid() && closed && pairs == old(pairs)
      ensures forall s :: s in old(uplinks) || s in old(clients) ==> s in destroyed
    {
      hide SideOk;
      closed := true;
      destroyed := destroyed + (set s | s in uplinks) + (set s | s in clients);
      assert forall s :: s in uplinks ==> s < arrivals by { WaitingArrived(Uplink, uplinks, pairs, roles); }
      assert forall s :: s in clients ==> s < arrivals by { WaitingArrived(Client, clients, pairs, roles); }
      PartKeepsSide(Uplink, uplinks, [], pairs, roles);
      PartKeepsSide(Client, clients, [], pairs, roles);
      uplinks, clients := [], [];
    }

    /** Each side is paired in order of arrival, no socket twice, no waiting live socket overtaken. */
    lemma PairedInTurn(i: nat, j: nat)
      requires Valid() && i < j < |pairs|
      ensures pairs[i].uplink < pairs[j].uplink && pairs[i].client < pairs[j].client
      ensures pairs[i].uplink != pairs[j].client && pairs[i].client != pairs[j].uplink && pairs[i].uplink != pairs[i].client
      ensures forall s :: s in uplinks ==> pairs[j].uplink < s
      ensures forall s :: s in clients ==> pairs[j].client < s
    {
      SidePairedInTurn(Uplink, uplinks, pairs, roles, i, j);
      SidePairedInTurn(Client, clients, pairs, roles, i, j);
    }
  }

  lemma SidePairedInTurn(role: Role, queue: seq<Socket>, pairs: seq<Pair>, roles: seq<Role>, i: nat, j: nat)
    requires SideOk(role, queue, pairs, roles) && i < j < |pairs|
    ensures Taken(pairs, role)[i] < Taken(pairs, role)[j] < |roles|
    ensures roles[Taken(pairs, role)[i]] == roles[Taken(pairs, role)[j]] == role
    ensures forall s :: s in queue ==> Taken(pairs, role)[j] < s
  {
    var taken := Taken(pairs, role);
    assert (taken + queue)[i] < (taken + queue)[j];
    forall s | s in queue
      ensures taken[j] < s
    {
      var k :| 0 <= k < |queue| && queue[k] == s;
      assert (taken + queue)[j] < (taken + queue)[|taken| + k];
    }
  }

  lemma WaitingArrived(role: Role, queue: seq<Socket>, pairs: seq<Pair>, roles: seq<Role>)
    requires SideOk(role, queue, pairs, roles)
    ensures forall s :: s in queue ==> s < |roles|
  {
  }

  lemma LastIsLive(queue: seq<Socket>, entry: Socket, destroyed: set<Socket>)
    requires queue != [] && queue[|queue| - 1] == entry && entry !in destroyed
    ensures AnyLive(queue, destroyed)
  {
  }

  function SideOf(pair: Pair, role: Role): Socket {
    if role == Uplink then pair.uplink else pair.client
  }

  function Other(role: Role): Role {
    if role == Uplink then Client else Uplink
  }

  /** If only the last socket of a queue is live, taking it leaves none. */
  lemma NothingLiveLeft(queue: seq<Socket>, taken: Option<Socket>, rest: seq<Socket>, destroyed: set<Socket>)
    requires TookFirst(queue, taken, rest, destroyed) && taken.Some?
    requires !AnyLive(queue[..|queue| - 1], destroyed)
    ensures !AnyLive(rest, destroyed)
  {
    var i := |queue| - |rest| - 1;
    var front := queue[..|queue| - 1];
    assert forall k :: 0 <= k < |front| ==> front[k] == queue[k];
    assert i >= |front|;
  }

  /** Taking the first live socket and putting it back only drops dead ones. */
  lemma TakeKeepsSide(role: Role, queue: seq<Socket>, taken: Option<Socket>, rest: seq<Socket>, pairs: seq<Pair>,
                      roles: seq<Role>, destroyed: set<Socket>)
    requires SideOk(role, queue, pairs, roles) && TookFirst(queue, taken, rest, destroyed)
    ensures var back := PutBack(taken, rest);
      && SideOk(role, back, pairs, roles) && |rest| <= |back| <= |queue|
      && (taken.Some? <==> AnyLive(queue, destroyed)) && (taken.None? ==> !AnyLive(back, destroyed))
      && LiveKept(queue, back, destroyed, None) && LiveKept(queue, rest, destroyed, taken)
  {
    var back := PutBack(taken, rest);
    QueueAscends(role, queue, pairs, roles);
    assert back == queue[|queue| - |back|..];
    PartKeepsSide(role, queue, back, pairs, roles);
    forall s | s in queue && s !in destroyed
      ensures s in back
    {
      var i :| 0 <= i < |queue| && queue[i] == s;
      assert taken.Some? ==> i >= |queue| - |back| && back[i - (|queue| - |back|)] == s;
    }
  }
}

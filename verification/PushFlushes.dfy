/** What a flush writes, whole: the events that the connection has not been sent yet, as far as the socket takes them. */
module PushFlushes {
  import opened Options
  import opened PushProtocol
  import opened PushServer

  /** The frames of n events of a log from a cursor on. */
  ghost function EventFrames(log: seq<Payload>, cursor: nat, n: nat): (frames: seq<Frame>)
    requires cursor + n <= |log|
    ensures |frames| == n
  {
    seq(n, k requires 0 <= k < n => EventFrame(cursor + k + 1, log[cursor + k]))
  }

  ghost predicate CanFlush(c: Conn) {
    !c.closed && !c.blocked && !c.ended && c.session.Some?
  }

  /** From c to d the next n events have been written, and the socket took all but perhaps the last without pushing back. */
  ghost predicate HasFlushed(b: Bridge, c: Conn, d: Conn, answers: nat -> bool, n: nat) {
    && c.session.Some? && c.sendCursor + n <= |Log(b, c.session.value)|
    && d == c.(sendCursor := c.sendCursor + n, blocked := d.blocked,
               out := c.out + EventFrames(Log(b, c.session.value), c.sendCursor, n))
    && (d.blocked <==> n > 0 && !answers(|c.out| + n - 1))
    && (forall j :: |c.out| <= j < |c.out| + n - 1 ==> answers(j))
    && (!d.blocked ==> c.sendCursor + n == |Log(b, c.session.value)|)
  }

  lemma NothingToFlush(b: Bridge, c: Conn, answers: nat -> bool)
    requires CanFlush(c) && c.sendCursor == |Log(b, c.session.value)|
    ensures HasFlushed(b, c, c, answers, 0)
  {
    assert c.out + EventFrames(Log(b, c.session.value), c.sendCursor, 0) == c.out;
  }

  lemma FlushGoesOn(b: Bridge, c: Conn, m: Conn, d: Conn, answers: nat -> bool, n: nat)
    requires CanFlush(c) && c.sendCursor < |Log(b, c.session.value)| && answers(|c.out|)
    requires m == c.(sendCursor := c.sendCursor + 1,
                     out := c.out + [EventFrame(c.sendCursor + 1, Log(b, c.session.value)[c.sendCursor])])
    requires HasFlushed(b, m, d, answers, n)
    ensures HasFlushed(b, c, d, answers, n + 1)
  {
    var log := Log(b, c.session.value);
    assert EventFrames(log, c.sendCursor, n + 1) == [EventFrame(c.sendCursor + 1, log[c.sendCursor])] + EventFrames(log, m.sendCursor, n);
    assert m.out + EventFrames(log, m.sendCursor, n) == c.out + EventFrames(log, c.sendCursor, n + 1);
  }

  lemma FlushStops(b: Bridge, c: Conn, d: Conn, answers: nat -> bool)
    requires CanFlush(c) && c.sendCursor < |Log(b, c.session.value)| && !answers(|c.out|)
    requires d == c.(sendCursor := c.sendCursor + 1, blocked := true,
                     out := c.out + [EventFrame(c.sendCursor + 1, Log(b, c.session.value)[c.sendCursor])])
    ensures HasFlushed(b, c, d, answers, 1)
  {
    var log := Log(b, c.session.value);
    assert EventFrames(log, c.sendCursor, 1) == [EventFrame(c.sendCursor + 1, log[c.sendCursor])];
  }

  /** An open connection whose cursor is not refused is sent the events after it, in order, until one is pushed back or none is left. */
  lemma {:induction false} FlushSendsTheRest(b: Bridge, c: Conn, answers: nat -> bool) returns (n: nat)
    requires CanFlush(c) && !CursorRefused(b, c.session.value, c.sendCursor)
    ensures HasFlushed(b, c, Flushed(b, c, answers), answers, n)
    decreases |Log(b, c.session.value)| - c.sendCursor
  {
    hide HasFlushed;
    var log := Log(b, c.session.value);
    if c.sendCursor == |log| {
      NothingToFlush(b, c, answers);
      n := 0;
    } else if answers(|c.out|) {
      var m := FlushOne(b, c, true);
      n := FlushSendsTheRest(b, m, answers);
      FlushGoesOn(b, c, m, Flushed(b, m, answers), answers, n);
      n := n + 1;
    } else {
      FlushStops(b, c, FlushOne(b, c, false), answers);
      n := 1;
    }
  }

  /** A refused cursor is answered with one resync and the end of the connection. */
  lemma RefusedCursorResyncs(b: Bridge, c: Conn, answers: nat -> bool)
    requires CanFlush(c) && CursorRefused(b, c.session.value, c.sendCursor)
    ensures var session := c.session.value;
      Flushed(b, c, answers) == c.(out := c.out + [ResyncFrame(|Log(b, session)|, Summary(b, session))],
                                   blocked := !answers(|c.out|), ended := true)
  {
  }

  /** Before a hello, while the socket pushes back and after the connection is closed, nothing is written. */
  lemma ClosedConnectionIsLeft(b: Bridge, c: Conn, answers: nat -> bool)
    requires c.closed || c.blocked || c.session.None?
    ensures Flushed(b, c, answers) == c
  {
  }
}

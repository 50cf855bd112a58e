/**
 The recording on its way to the server: from the microphone's ring through the staging buffer and
 the network's output buffer onto the wire, as a chunked body that is finished only when nothing is left behind.
 */
module AudioStream {
  import opened Arithmetic
  import opened Framing
  import opened Options
  import Chunked
  import Microphone

  const MIC_STREAM_BUFFER_CAPACITY: nat := 8192
  const MIC_STREAM_SEND_THRESHOLD: nat := 1024

  // ------------------------------------------------- the network's side ---

  datatype Phase = Starting | Streaming | SendingEnd | Receiving | Failed

  /** What one attempt to send does: fail, push back, or take some bytes. */
  datatype Sent = SendFailed | Pending | Accepted(bytes: nat)

  /** The part of a transaction that sending changes; unsent is what is left of the output. */
  datatype Sending = Sending(phase: Phase, unsent: seq<byte>, wire: seq<byte>, finish: bool)

  /** One attempt to send: a socket that takes nothing at all has been closed. */
  function Attempted(s: Sending, sent: Sent): Sending {
    match sent
    case SendFailed => s.(phase := Failed, unsent := [])
    case Pending => s
    case Accepted(bytes) =>
      if bytes == 0 then s.(phase := Failed, unsent := [])
      else
        var n := Min(bytes, |s.unsent|);
        s.(unsent := s.unsent[n..], wire := s.wire + s.unsent[..n])
  }

  /** What is left of a turn's four transitions, from the t-th on. */
  function Turned(s: Sending, connected: bool, sent: nat -> Sent, t: nat): Sending
    decreases 4 - t
  {
    if t >= 4 then s
    else
      match s.phase
      case Failed => s
      case Receiving => s
      case Starting => if connected then Turned(s.(phase := Streaming), connected, sent, t + 1) else s
      case Streaming =>
        if s.unsent != [] then
          var tried := Attempted(s, sent(t));
          if tried.phase == Failed || tried.unsent != [] then tried else Turned(tried, connected, sent, t + 1)
        else if s.finish then Turned(s.(phase := SendingEnd, unsent := Chunked.LAST_CHUNK), connected, sent, t + 1)
        else s
      case SendingEnd =>
        var tried := Attempted(s, sent(t));
        if tried.phase == Failed || tried.unsent != [] then tried
        else Turned(tried.(phase := Receiving), connected, sent, t + 1)
  }

  predicate TakesAll(sent: Sent, bytes: nat) {
    sent.Accepted? && sent.bytes >= bytes && sent.bytes > 0
  }

  /** Over a connection that takes whatever it is given, one turn brings a finished transaction to its end. */
  lemma OneTurnFinishes(s: Sending, sent: nat -> Sent)
    requires s.phase in {Starting, Streaming} && s.finish
    requires forall t: nat :: TakesAll(sent(t), |s.unsent|) && TakesAll(sent(t), |Chunked.LAST_CHUNK|)
    ensures Turned(s, true, sent, 0) == Sending(Receiving, [], s.wire + s.unsent + Chunked.LAST_CHUNK, true)
  {
    var streaming := s.(phase := Streaming);
    assert s.unsent[|s.unsent|..] == [] && s.unsent[..|s.unsent|] == s.unsent;
    if s.phase == Starting {
      StreamingFinishes(streaming, sent, 1);
    } else {
      StreamingFinishes(streaming, sent, 0);
    }
  }

  lemma StreamingFinishes(s: Sending, sent: nat -> Sent, t: nat)
    requires s.phase == Streaming && s.finish && t <= 1
    requires forall t: nat :: TakesAll(sent(t), |s.unsent|) && TakesAll(sent(t), |Chunked.LAST_CHUNK|)
    ensures Turned(s, true, sent, t) == Sending(Receiving, [], s.wire + s.unsent + Chunked.LAST_CHUNK, true)
  {
    assert TakesAll(sent(t), |s.unsent|);
    var emptied := s.(unsent := [], wire := s.wire + s.unsent);
    if s.unsent == [] {
      assert emptied == s;
      EndFinishes(s, sent, t);
    } else {
      AllTaken(s, sent(t));
      EndFinishes(emptied, sent, t + 1);
    }
  }

  lemma EndFinishes(s: Sending, sent: nat -> Sent, t: nat)
    requires s.phase == Streaming && s.finish && s.unsent == [] && t <= 2
    requires TakesAll(sent(t + 1), |Chunked.LAST_CHUNK|)
    ensures Turned(s, true, sent, t) == Sending(Receiving, [], s.wire + Chunked.LAST_CHUNK, true)
  {
    var ending := s.(phase := SendingEnd, unsent := Chunked.LAST_CHUNK);
    AllTaken(ending, sent(t + 1));
  }

  lemma AllTaken(s: Sending, sent: Sent)
    requires TakesAll(sent, |s.unsent|)
    ensures Attempted(s, sent) == s.(unsent := [], wire := s.wire + s.unsent)
  {
    assert s.unsent[..|s.unsent|] == s.unsent && s.unsent[|s.unsent|..] == [];
  }

  class AudioTransaction {
    var phase: Phase
    var output: seq<byte>
    var outputOffset: nat
    var finishRequested: bool
    /** The body bytes the socket has taken, and the chunks they and the output are made of. */
    ghost var wire: seq<byte>
    ghost var chunks: seq<seq<byte>>

    ghost predicate Valid()
      reads this
    {
      && outputOffset <= |output| && (output != [] ==> outputOffset < |output|)
      && Chunked.AreChunks(chunks)
      && (phase != Failed ==> wire + output[outputOffset..] == Chunked.Body(chunks) + Terminal())
      && (phase == Receiving ==> output == [])
      && (phase == SendingEnd ==> output != [])
      && (phase in {SendingEnd, Receiving} ==> finishRequested)
    }

    ghost function Terminal(): seq<byte>
      reads this
    {
      if phase in {SendingEnd, Receiving} then Chunked.LAST_CHUNK else []
    }

    constructor ()
      ensures Valid() && phase == Starting && wire == [] && chunks == [] && output == [] && !finishRequested
    {
      phase, output, outputOffset, finishRequested, wire, chunks := Starting, [], 0, false, [], [];
    }

    /** network_audio_stream_can_write */
    predicate CanWrite()
      reads this
    {
      phase == Streaming && output == [] && !finishRequested
    }

    /** network_audio_stream_write */
    method Write(data: seq<byte>) returns (ok: bool)
      requires Valid()
      modifies this`output, this`outputOffset, this`chunks
      ensures Valid() && (ok <==> old(CanWrite()) && 0 < |data| <= Chunked.AUDIO_CHUNK_CAPACITY)
      ensures chunks == if ok then old(chunks) + [data] else old(chunks)
      ensures !ok ==> output == old(output)
    {
      if !CanWrite() || data == [] || |data| > Chunked.AUDIO_CHUNK_CAPACITY {
        return false;
      }
      Chunked.BodyAppend(chunks, data);
      NothingUnsent();
      output, outputOffset := Chunked.Chunk(data), 0;
      chunks := chunks + [data];
      assert output[0..] == output;
      ok := true;
    }

    lemma NothingUnsent()
      requires Valid() && phase in {Starting, Streaming} && output == []
      ensures wire == Chunked.Body(chunks)
    {
      assert wire + output[outputOffset..] == wire && Chunked.Body(chunks) + Terminal() == Chunked.Body(chunks);
    }

    /** network_audio_stream_finish */
    method Finish() returns (ok: bool)
      requires Valid()
      modifies this`finishRequested
      ensures Valid() && (ok <==> phase != Failed) && finishRequested == (old(finishRequested) || ok)
    {
      if phase == Failed {
        return false;
      }
      finishRequested, ok := true, true;
    }

    ghost function Abs(): Sending
      requires outputOffset <= |output|
      reads this
    {
      Sending(phase, output[outputOffset..], wire, finishRequested)
    }

    /** send_bytes_step; complete says that the last byte is gone. */
    method SendBytes(sent: Sent) returns (complete: bool)
      requires outputOffset < |output| && phase in {Streaming, SendingEnd}
      modifies this`phase, this`output, this`outputOffset, this`wire
      ensures outputOffset <= |output| && Abs() == Attempted(old(Abs()), sent) && old(wire) <= wire
      ensures complete <==> phase != Failed && output == []
      ensures output == [] || outputOffset < |output|
      ensures phase == old(phase) || (phase == Failed && output == [])
      ensures phase != Failed ==> wire + output[outputOffset..] == old(wire) + old(output)[old(outputOffset)..]
    {
      NothingIsLost(Abs(), sent);
      complete := false;
      match sent
      case SendFailed =>
        phase, output, outputOffset := Failed, [], 0;
      case Pending =>
      case Accepted(bytes) =>
        if bytes == 0 {
          phase, output, outputOffset := Failed, [], 0;
          return;
        }
        ghost var unsent := output[outputOffset..];
        var n := Min(bytes, |output| - outputOffset);
        assert output[outputOffset..outputOffset + n] == unsent[..n] && output[outputOffset + n..] == unsent[n..];
        wire := wire + output[outputOffset..outputOffset + n];
        outputOffset := outputOffset + n;
        if outputOffset == |output| {
          output, outputOffset, complete := [], 0, true;
        }
    }

    /** The terminal chunk becomes the output. */
    method BeginEnd()
      requires Valid() && phase == Streaming && output == [] && finishRequested
      modifies this`phase, this`output, this`outputOffset
      ensures Valid() && Abs() == old(Abs()).(phase := SendingEnd, unsent := Chunked.LAST_CHUNK)
    {
      hide Chunked.Body, Chunked.AreChunks;
      NothingUnsent();
      output, outputOffset, phase := Chunked.LAST_CHUNK, 0, SendingEnd;
      assert output[0..] == output;
    }

    /** One attempt at the output; once the terminal chunk is gone, the answer is awaited. */
    method SendOutput(sent: Sent) returns (complete: bool)
      requires Valid() && phase in {Streaming, SendingEnd} && output != []
      modifies this`phase, this`output, this`outputOffset, this`wire
      ensures Valid() && old(wire) <= wire
      ensures var tried := Attempted(old(Abs()), sent);
        && (complete <==> tried.phase != Failed && tried.unsent == [])
        && Abs() == if complete && old(phase) == SendingEnd then tried.(phase := Receiving) else tried
    {
      hide Attempted, Chunked.Body, Chunked.AreChunks;
      complete := SendBytes(sent);
      if complete && phase == SendingEnd {
        phase := Receiving;
      }
    }

    /**
     pump_audio, from the moment the connection is up: at most four transitions. connected says
     that the request header has been sent; the server's answer is not part of this.
     */
    method Pump(connected: bool, sent: nat -> Sent)
      requires Valid()
      modifies this`phase, this`output, this`outputOffset, this`wire
      ensures Valid() && Abs() == Turned(old(Abs()), connected, sent, 0) && old(wire) <= wire
    {
      hide Attempted, Turned, Chunked.Body, Chunked.AreChunks;
      ghost var goal := Turned(Abs(), connected, sent, 0);
      for transitions := 0 to 4
        invariant Valid() && Turned(Abs(), connected, sent, transitions) == goal && old(wire) <= wire
      {
        TurnUnfolds(Abs(), connected, sent, transitions);
        if phase == Failed || phase == Receiving || (phase == Starting && !connected) {
          return;
        }
        if phase == Starting {
          phase := Streaming;
        } else if output == [] {
          if !finishRequested {
            return;
          }
          BeginEnd();
        } else {
          var complete := SendOutput(sent(transitions));
          if !complete {
            return;
          }
        }
      }
      TurnUnfolds(Abs(), connected, sent, 4);
    }
  }

  /** Bytes move from the output to the wire, and nothing is lost. */
  lemma NothingIsLost(s: Sending, sent: Sent)
    ensures Attempted(s, sent).phase != Failed ==> Attempted(s, sent).wire + Attempted(s, sent).unsent == s.wire + s.unsent
  {
    if sent.Accepted? && sent.bytes > 0 {
      var n := Min(sent.bytes, |s.unsent|);
      assert s.unsent == s.unsent[..n] + s.unsent[n..];
    }
  }

  lemma TurnUnfolds(s: Sending, connected: bool, sent: nat -> Sent, t: nat)
    ensures t >= 4 || s.phase in {Failed, Receiving} || (s.phase == Starting && !connected) ==> Turned(s, connected, sent, t) == s
    ensures s.phase == Streaming && s.unsent == [] && !s.finish ==> Turned(s, connected, sent, t) == s
    ensures t < 4 && s.phase == Starting && connected ==>
              Turned(s, connected, sent, t) == Turned(s.(phase := Streaming), connected, sent, t + 1)
    ensures t < 4 && s.phase == Streaming && s.unsent == [] && s.finish ==>
              Turned(s, connected, sent, t)
                == Turned(s.(phase := SendingEnd, unsent := Chunked.LAST_CHUNK), connected, sent, t + 1)
    ensures t < 4 && ((s.phase == Streaming && s.unsent != []) || s.phase == SendingEnd) ==>
              var tried := Attempted(s, sent(t));
              Turned(s, connected, sent, t)
                == if tried.phase == Failed || tried.unsent != [] then tried
                   else Turned(if s.phase == SendingEnd then tried.(phase := Receiving) else tried, connected, sent, t + 1)
  {
    hide Attempted;
  }

  // ------------------------------------------------------- the main loop ---

  class Recorder {
    const mic: Microphone.Microphone
    const net: AudioTransaction
    /** microphone_stream_buffer */
    const staging: array<byte>
    var stagingSize: nat
    var stopRequested: bool
    var networkFinishRequested: bool

    ghost predicate Valid()
      reads this, mic, mic.ring, net, staging
    {
      && staging != mic.ring && staging.Length == MIC_STREAM_BUFFER_CAPACITY
      && mic.Valid() && net.Valid() && stagingSize <= staging.Length
      && Chunked.Flatten(net.chunks) + staging[..stagingSize] == mic.recorded[..mic.totalPcmSize]
      && (stopRequested ==> !mic.sampling)
      && (net.finishRequested ==> IsComplete())
      && (networkFinishRequested ==> net.finishRequested)
    }

    /** Everything recorded has been written to the network, up to the longest recording. */
    ghost predicate IsComplete()
      reads this, mic, net
    {
      stagingSize == 0 && !mic.sampling && IsRingEmpty()
    }

    constructor (mic: Microphone.Microphone, net: AudioTransaction)
      requires mic.Valid() && mic.recorded == [] && net.Valid() && net.chunks == [] && !net.finishRequested
      ensures Valid() && this.mic == mic && this.net == net && fresh(staging)
    {
      this.mic, this.net := mic, net;
      staging := new byte[MIC_STREAM_BUFFER_CAPACITY];
      stagingSize, stopRequested, networkFinishRequested := 0, false, false;
    }

    /** send_microphone_stream_buffer */
    method SendBuffer(force: bool) returns (ok: bool, sent: bool)
      requires Valid()
      modifies this`stagingSize, net`output, net`outputOffset, net`chunks
      ensures Valid() && ok
      ensures sent <==> old(net.CanWrite()) && old(stagingSize) > 0 && (force || old(stagingSize) >= MIC_STREAM_SEND_THRESHOLD)
      ensures stagingSize == if sent then 0 else old(stagingSize)
      ensures !sent ==> net.output == old(net.output)
    {
      hide Microphone.Holds, Chunked.Body, Chunked.Flatten;
      sent := false;
      if stagingSize == 0 || (!force && stagingSize < MIC_STREAM_SEND_THRESHOLD) || !net.CanWrite() {
        return true, false;
      }
      Chunked.BodyAppend(net.chunks, staging[..stagingSize]);
      ok := net.Write(staging[..stagingSize]);
      stagingSize := 0;
      sent := true;
    }

    /** Everything recorded has been read, up to the longest recording. */
    ghost predicate IsRingEmpty()
      reads mic
    {
      mic.totalPcmSize == Min(|mic.recorded|, Microphone.PCM_CAPACITY)
    }

    /** drain_microphone_samples */
    method Drain(force: bool, serviceActive: bool) returns (ok: bool, drained: bool)
      requires Valid()
      modifies this`stagingSize, mic, staging, net`output, net`outputOffset, net`chunks
      ensures Valid() && mic.recorded == old(mic.recorded) && mic.totalPcmSize >= old(mic.totalPcmSize)
      ensures !ok ==> !mic.captureOpen
      ensures ok ==> (drained <==> net.CanWrite() && stagingSize == 0 && IsRingEmpty())
      ensures ok ==> IsRingEmpty() || (stagingSize >= MIC_STREAM_SEND_THRESHOLD && !net.CanWrite())
      ensures ok ==> stagingSize == 0 || !net.CanWrite() || (!force && stagingSize < MIC_STREAM_SEND_THRESHOLD)
    {
      ok, drained := true, false;
      while true
        invariant Valid() && mic.recorded == old(mic.recorded) && mic.totalPcmSize >= old(mic.totalPcmSize) && !drained
        decreases |mic.recorded| - mic.totalPcmSize
      {
        if stagingSize == staging.Length {
          var _, sent := SendBuffer(true);
          if !sent {
            return true, false;
          }
        }
        var read, bytesRead := ReadMore(serviceActive);
        if !read {
          return false, false;
        }
        var _, sent := SendBuffer(force);
        if bytesRead == 0 {
          drained := stagingSize == 0 && net.CanWrite();
          return;
        }
        if !sent && stagingSize >= MIC_STREAM_SEND_THRESHOLD {
          return;
        }
      }
    }

    /** Reads from the microphone into the free part of the staging buffer. */
    method ReadMore(serviceActive: bool) returns (ok: bool, bytesRead: nat)
      requires Valid() && stagingSize < staging.Length
      modifies this`stagingSize, mic, staging
      ensures Valid() && mic.recorded == old(mic.recorded) && mic.totalPcmSize == old(mic.totalPcmSize) + bytesRead
      ensures ok <==> mic.captureOpen
      ensures ok && bytesRead == 0 ==> IsRingEmpty()
      ensures stagingSize == old(stagingSize) + bytesRead
    {
      hide Microphone.Holds, Chunked.Body, Chunked.Flatten, Chunked.AreChunks, Microphone.Spliced;
      ghost var before, total := staging[..], mic.totalPcmSize;
      ok, bytesRead := mic.ReadCapture(staging, stagingSize, staging.Length - stagingSize, serviceActive);
      ghost var read := mic.recorded[total..mic.totalPcmSize];
      StagedSplice(staging, before, stagingSize, read);
      StagedGrows(Chunked.Flatten(net.chunks), before[..stagingSize], read, mic.recorded, total);
      stagingSize := stagingSize + bytesRead;
    }

    /** request_microphone_finish */
    method RequestStop() returns (ok: bool)
      requires Valid()
      modifies this`stopRequested, mic`sampling, mic`stoppedWriteOffset
      ensures Valid() && ok == mic.captureOpen && stopRequested == (old(stopRequested) || ok)
    {
      ok := mic.FinishCapture();
      stopRequested := stopRequested || ok;
    }

    /** The network's part of a turn leaves everything else as it is. */
    method PumpNetwork(connected: bool, sent: nat -> Sent)
      requires Valid()
      modifies net`phase, net`output, net`outputOffset, net`wire
      ensures Valid() && old(net.wire) <= net.wire && net.Abs() == Turned(old(net.Abs()), connected, sent, 0)
    {
      hide Microphone.Holds, Chunked.Body, Chunked.Flatten, Chunked.AreChunks, Turned, Attempted;
      net.Pump(connected, sent);
    }

    /** The end of a turn: once stopped and drained, the request is finished. */
    method FinishIfDrained(drained: bool) returns (ok: bool)
      requires Valid()
      requires drained ==> stagingSize == 0 && IsRingEmpty()
      modifies this`networkFinishRequested, net`finishRequested
      ensures Valid()
      ensures ok && stopRequested && drained ==> net.finishRequested
      ensures old(net.finishRequested) ==> net.finishRequested
      ensures ok || net.phase == Failed || mic.totalPcmSize == 0
    {
      hide Microphone.Holds, Chunked.Body, Chunked.Flatten, Chunked.AreChunks;
      ok := true;
      if stopRequested && drained && !networkFinishRequested {
        if mic.totalPcmSize == 0 {
          return false;
        }
        ok := net.Finish();
        networkFinishRequested := ok;
      }
    }

    /** One turn of the main loop while a recording is being uploaded. */
    method Turn(serviceActive: bool, connected: bool, sent: nat -> Sent) returns (ok: bool)
      requires Valid()
      modifies this, mic, staging, net
      ensures Valid() && mic.recorded == old(mic.recorded) && mic.totalPcmSize >= old(mic.totalPcmSize)
      ensures old(net.wire) <= net.wire
      ensures ok && old(stopRequested) && IsRingEmpty() && stagingSize == 0 && net.phase == Streaming && net.output == [] ==>
                net.finishRequested
      ensures ok && !old(stopRequested) && mic.captureFull ==> stopRequested || !mic.captureOpen
      ensures !ok ==> net.phase == Failed || !mic.captureOpen || mic.totalPcmSize == 0
    {
      hide Valid;
      PumpNetwork(connected, sent);
      if net.phase == Failed {
        return false;
      }
      var drained: bool;
      ok, drained := Drain(stopRequested, serviceActive);
      if !ok {
        return;
      }
      if !stopRequested && mic.captureFull {
        var _ := RequestStop();
        return;
      }
      ok := FinishIfDrained(drained);
    }

    /** The terminal chunk is on its way only when the ring, the staging buffer and every earlier chunk are behind it. */
    lemma TerminalChunkComesLast()
      requires Valid() && net.phase in {SendingEnd, Receiving}
      ensures IsComplete()
      ensures Chunked.Flatten(net.chunks) == mic.recorded[..mic.totalPcmSize]
      ensures net.wire + net.output[net.outputOffset..] == Chunked.Body(net.chunks) + Chunked.LAST_CHUNK
    {
      assert Chunked.Flatten(net.chunks) + staging[..stagingSize] == Chunked.Flatten(net.chunks);
    }

    /**
     Once the request has been sent whole, the server saves exactly what the microphone recorded,
     up to the longest recording, provided it accepts recordings of that size; it refuses one without
     a sample, or with a part of one, and no other.
     */
    lemma ServerSavesTheRecording(maxBytes: nat)
      requires Valid() && net.phase == Receiving
      requires Min(|mic.recorded|, Microphone.PCM_CAPACITY) <= maxBytes
      ensures var captured := mic.recorded[..Min(|mic.recorded|, Microphone.PCM_CAPACITY)];
        Chunked.Accepted(net.wire, maxBytes) ==
          if Chunked.WholeSamples(captured) then Ok(Chunked.Recording(captured, [])) else Err(Chunked.PartialSamples)
    {
      TerminalChunkComesLast();
      assert net.wire + net.output[net.outputOffset..] == net.wire;
      assert Chunked.Body(net.chunks) + Chunked.LAST_CHUNK + [] == net.wire;
      Chunked.BodyIsSaved([], net.chunks, [], maxBytes);
      assert [] + Chunked.Flatten(net.chunks) == Chunked.Flatten(net.chunks);
    }
  }

  lemma StagedSplice(staging: array<byte>, before: seq<byte>, size: nat, more: seq<byte>)
    requires size + |more| <= |before| == staging.Length && staging[..] == Microphone.Spliced(before, size, more)
    ensures staging[..size + |more|] == before[..size] + more
  {
    assert staging[..size + |more|] == staging[..][..size + |more|];
  }

  lemma StagedGrows(flat: seq<byte>, staged: seq<byte>, more: seq<byte>, recorded: seq<byte>, total: nat)
    requires total + |more| <= |recorded|
    requires flat + staged == recorded[..total] && more == recorded[total..total + |more|]
    ensures flat + (staged + more) == recorded[..total + |more|]
  {
    assert flat + (staged + more) == flat + staged + more;
  }
}

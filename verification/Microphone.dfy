/** The microphone's shared ring, and reading out of it what the service has recorded. */
module Microphone {
  import opened Arithmetic
  import opened Framing

  const PCM_BYTES_PER_SECOND: nat := 16364 * 1 * 2
  const PCM_CAPACITY: nat := PCM_BYTES_PER_SECOND * 300

  /** How far a writer is ahead of a reader in a ring, from their offsets alone. */
  function Available(writeOffset: nat, readOffset: nat, size: nat): (n: int) {
    if writeOffset >= readOffset then writeOffset - readOffset else size - readOffset + writeOffset
  }

  /** As long as the writer never laps the reader, the offsets tell the distance. */
  lemma OffsetsTellDistance(read: nat, written: nat, size: nat)
    requires size > 0 && read <= written < read + size
    ensures Available(written % size, read % size, size) == written - read
  {
    var d := written - read;
    var r := read % size;
    assert read == size * (read / size) + r;
    if r + d < size {
      ModuloIs(written, size, read / size, r + d);
    } else {
      ModuloIs(written, size, read / size + 1, r + d - size);
    }
  }

  lemma MultipleIsFar(size: nat, d: int)
    ensures d >= 1 ==> size * d >= size
    ensures d <= -1 ==> size * d <= 0 - size
  {
  }

  lemma ModuloIs(n: int, size: nat, q: int, r: int)
    requires size > 0 && n == size * q + r && 0 <= r < size
    ensures n % size == r
  {
    assert n == size * (n / size) + n % size;
    assert size * (n / size - q) == size * (n / size) - size * q;
    MultipleIsFar(size, n / size - q);
  }

  lemma OffsetAdvances(read: nat, k: nat, size: nat)
    requires k < size
    ensures (read % size + k) % size == (read + k) % size
  {
    RingPosition(read, k, size);
    if read % size + k < size {
      ModuloIs(read % size + k, size, 0, read % size + k);
    } else {
      ModuloIs(read % size + k, size, 1, read % size + k - size);
    }
  }

  /** The ring position of the k-th byte after a given one. */
  lemma RingPosition(read: nat, k: nat, size: nat)
    requires k < size
    ensures (read + k) % size == if read % size + k < size then read % size + k else read % size + k - size
  {
    var r := read % size;
    assert read == size * (read / size) + r;
    if r + k < size {
      ModuloIs(read + k, size, read / size, r + k);
    } else {
      ModuloIs(read + k, size, read / size + 1, r + k - size);
    }
  }

  /** Where in the ring the i-th byte of a recording goes. */
  function At(ring: seq<byte>, i: nat): byte
    requires ring != []
  {
    ring[i % |ring|]
  }

  /** The unread bytes stand in the ring where the offsets say. */
  ghost predicate Holds(ring: seq<byte>, recorded: seq<byte>, total: nat) {
    ring != [] && forall i: nat :: total <= i < |recorded| ==> At(ring, i) == recorded[i]
  }

  /** These bytes with others written over a part of them. */
  function Spliced(bytes: seq<byte>, at: nat, part: seq<byte>): (r: seq<byte>)
    requires at + |part| <= |bytes|
    ensures |r| == |bytes|
  {
    bytes[..at] + part + bytes[at + |part|..]
  }

  lemma SplicedTwice(bytes: seq<byte>, at: nat, a: seq<byte>, b: seq<byte>)
    requires at + |a| + |b| <= |bytes|
    ensures Spliced(Spliced(bytes, at, a), at + |a|, b) == Spliced(bytes, at, a + b)
  {
  }

  lemma SplicedPush(bytes: seq<byte>, at: nat, part: seq<byte>, value: byte)
    requires at + |part| < |bytes|
    ensures Spliced(bytes, at, part)[at + |part| := value] == Spliced(bytes, at, part + [value])
  {
  }

  /** memcpy */
  method Copy(destination: array<byte>, to: nat, source: array<byte>, from: nat, count: nat)
    requires destination != source && to + count <= destination.Length && from + count <= source.Length
    modifies destination
    ensures destination[..] == Spliced(old(destination[..]), to, source[from..from + count])
  {
    hide Spliced;
    ghost var before := destination[..];
    SplicedNothing(before, to);
    assert source[from..from] == [];
    for i := 0 to count
      invariant destination[..] == Spliced(before, to, source[from..from + i])
    {
      SplicedPush(before, to, source[from..from + i], source[from + i]);
      assert source[from..from + i] + [source[from + i]] == source[from..from + i + 1];
      destination[to + i] := source[from + i];
    }
  }

  lemma SplicedNothing(bytes: seq<byte>, at: nat)
    requires at <= |bytes|
    ensures Spliced(bytes, at, []) == bytes
  {
  }

  lemma HoldsLess(ring: seq<byte>, recorded: seq<byte>, total: nat, later: nat)
    requires Holds(ring, recorded, total) && total <= later
    ensures Holds(ring, recorded, later)
  {
  }

  /** The next unread bytes lie in the ring in at most two stretches. */
  lemma UnreadInRing(ring: seq<byte>, recorded: seq<byte>, total: nat, count: nat)
    requires ring != [] && Holds(ring, recorded, total) && total + count <= |recorded| < total + |ring|
    ensures var first := Min(count, |ring| - total % |ring|);
      recorded[total..total + count] == ring[total % |ring|..total % |ring| + first] + ring[0..count - first]
  {
    var r := total % |ring|;
    var first := Min(count, |ring| - r);
    var parts := ring[r..r + first] + ring[..count - first];
    forall i | 0 <= i < count
      ensures recorded[total + i] == parts[i]
    {
      RingPosition(total, i, |ring|);
    }
  }

  lemma SliceOfWhole(a: array<byte>, from: nat, to: nat)
    requires from <= to <= a.Length
    ensures a[..][from..to] == a[from..to]
  {
  }

  class Microphone {
    const ring: array<byte>
    /** Where the service will write next. */
    var deviceOffset: nat
    var readOffset: nat
    var stoppedWriteOffset: nat
    var totalPcmSize: nat
    var sampling: bool
    var captureOpen: bool
    var captureFull: bool
    /** Everything the service has recorded in this capture. */
    ghost var recorded: seq<byte>

    ghost predicate Valid()
      reads this, ring
    {
      && ring.Length > 0
      && totalPcmSize <= PCM_CAPACITY && (captureFull <==> totalPcmSize == PCM_CAPACITY)
      && readOffset == totalPcmSize % ring.Length
      && totalPcmSize <= |recorded| < totalPcmSize + ring.Length
      && deviceOffset == |recorded| % ring.Length
      && Holds(ring[..], recorded, totalPcmSize)
      && (captureFull ==> !sampling)
      && (captureOpen && !sampling && !captureFull ==> stoppedWriteOffset == deviceOffset)
    }

    /** microphone_initialize and microphone_begin_capture */
    constructor (size: nat)
      requires size > 0
      ensures Valid() && fresh(ring) && ring.Length == size && sampling && captureOpen && recorded == [] && totalPcmSize == 0
    {
      ring := new byte[size];
      deviceOffset, readOffset, stoppedWriteOffset, totalPcmSize := 0, 0, 0, 0;
      sampling, captureOpen, captureFull, recorded := true, true, false, [];
    }

    /** The service records a byte; by assumption it never laps the reader. */
    method DeviceRecords(value: byte)
      requires Valid() && sampling && |recorded| + 1 < totalPcmSize + ring.Length
      modifies this`deviceOffset, this`recorded, ring
      ensures Valid() && recorded == old(recorded) + [value]
    {
      var size := ring.Length;
      RingPosition(|recorded|, 1, size);
      ghost var before := ring[..];
      forall i | totalPcmSize <= i < |recorded|
        ensures i % size != deviceOffset
      {
        OffsetsDiffer(i, |recorded|, size);
      }
      ring[deviceOffset] := value;
      assert ring[..] == before[deviceOffset := value];
      recorded := recorded + [value];
      deviceOffset := if deviceOffset + 1 < size then deviceOffset + 1 else 0;
      assert Holds(ring[..], recorded, totalPcmSize);
    }

    /**
     microphone_read_capture. It copies the next recorded bytes in order: as many as are there, as
     the destination has room for, and as the longest recording has left.
     */
    method ReadCapture(destination: array<byte>, from: nat, capacity: nat, serviceActive: bool) returns (ok: bool, bytesRead: nat)
      requires Valid() && destination != ring && from + capacity <= destination.Length
      modifies this, destination
      ensures Valid() && recorded == old(recorded)
      ensures ok <==> old(captureOpen) && capacity > 0 && (old(sampling) && !old(captureFull) ==> serviceActive)
      ensures totalPcmSize == old(totalPcmSize) + bytesRead <= |recorded| && bytesRead <= capacity
      ensures bytesRead == if ok && !old(captureFull)
                           then Min(Min(capacity, PCM_CAPACITY - old(totalPcmSize)), |recorded| - old(totalPcmSize)) else 0
      ensures destination[..] == Spliced(old(destination[..]), from, recorded[old(totalPcmSize)..totalPcmSize])
      ensures sampling ==> old(sampling)
      ensures capacity > 0 ==> (ok <==> captureOpen)
    {
      hide Holds, Spliced;
      ok, bytesRead := false, 0;
      SplicedNothing(destination[..], from);
      assert recorded[totalPcmSize..totalPcmSize] == [];
      if !captureOpen || capacity == 0 {
        return;
      }
      if captureFull {
        return true, 0;
      }
      var writeOffset := stoppedWriteOffset;
      if sampling {
        if !serviceActive {
          sampling, captureOpen := false, false;
          return;
        }
        writeOffset := deviceOffset;
      }
      OffsetsTellDistance(totalPcmSize, |recorded|, ring.Length);
      bytesRead := Min(capacity, PCM_CAPACITY - totalPcmSize);
      bytesRead := Min(bytesRead, Available(writeOffset, readOffset, ring.Length));
      CopyOut(destination, from, bytesRead);
      Advance(bytesRead);
      ok := true;
    }

    /** What has been copied counts as read; the longest recording stops the capture. */
    method Advance(bytesRead: nat)
      requires Valid() && !captureFull && totalPcmSize + bytesRead <= Min(|recorded|, PCM_CAPACITY)
      modifies this`readOffset, this`totalPcmSize, this`sampling, this`captureFull, this`stoppedWriteOffset
      ensures Valid() && totalPcmSize == old(totalPcmSize) + bytesRead && (sampling ==> old(sampling))
    {
      hide Holds;
      OffsetAdvances(totalPcmSize, bytesRead, ring.Length);
      HoldsLess(ring[..], recorded, totalPcmSize, totalPcmSize + bytesRead);
      readOffset := (readOffset + bytesRead) % ring.Length;
      totalPcmSize := totalPcmSize + bytesRead;
      if totalPcmSize == PCM_CAPACITY {
        sampling, captureFull := false, true;
        stoppedWriteOffset := readOffset;
      }
    }

    /** Where the next unread bytes lie. */
    lemma UnreadParts(count: nat)
      requires Valid() && totalPcmSize + count <= |recorded|
      ensures readOffset < ring.Length
      ensures var first := Min(count, ring.Length - readOffset);
        && count - first <= ring.Length
        && recorded[totalPcmSize..totalPcmSize + count] == ring[readOffset..readOffset + first] + ring[0..count - first]
    {
      hide Holds;
      UnreadInRing(ring[..], recorded, totalPcmSize, count);
      var first := Min(count, ring.Length - readOffset);
      SliceOfWhole(ring, readOffset, readOffset + first);
      SliceOfWhole(ring, 0, count - first);
    }

    /** The two copies around the end of the ring. */
    method CopyOut(destination: array<byte>, from: nat, count: nat)
      requires Valid() && destination != ring && from + count <= destination.Length && totalPcmSize + count <= |recorded|
      modifies destination
      ensures Valid() && destination[..] == Spliced(old(destination[..]), from, recorded[totalPcmSize..totalPcmSize + count])
    {
      hide Valid, Holds, Spliced;
      UnreadParts(count);
      var firstCopySize := Min(count, ring.Length - readOffset);
      SplicedTwice(destination[..], from, ring[readOffset..readOffset + firstCopySize], ring[0..count - firstCopySize]);
      Copy(destination, from, ring, readOffset, firstCopySize);
      Copy(destination, from + firstCopySize, ring, 0, count - firstCopySize);
    }

    /** microphone_finish_capture */
    method FinishCapture() returns (ok: bool)
      requires Valid()
      modifies this`sampling, this`stoppedWriteOffset
      ensures Valid() && ok == captureOpen && (ok ==> !sampling) && (sampling ==> old(sampling))
    {
      if !captureOpen {
        return false;
      }
      if sampling {
        sampling := false;
        stoppedWriteOffset := deviceOffset;
      }
      ok := true;
    }
  }

  lemma OffsetsDiffer(i: nat, j: nat, size: nat)
    requires i < j < i + size
    ensures i % size != j % size
  {
    RingPosition(i, j - i, size);
  }
}

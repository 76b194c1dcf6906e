/** The non-blocking byte stream a connection is generic over, as oracles.

    Reads: one `readable` event performs reads until the socket says to stop. The
    answers the socket gives are a sequence of `ReadEvent`s; `Data([])` is a read of
    zero bytes. A sequence that runs out answers like `WouldBlock`.

    Writes: one `write` call offers the unsent part of an entry; the socket answers with
    how many bytes it took, or an error. */
module Socket {
  import opened Basics

  datatype ReadEvent = Data(bytes: seq<byte>) | WouldBlock | Failed(err: IoError)

  /** A read that ends the read loop: a zero-byte read, `WouldBlock` or an error. */
  predicate IsStop(ev: ReadEvent)
  {
    !ev.Data? || |ev.bytes| == 0
  }

  /** The index of the read that ends the loop, or `|events|` when none does. */
  function FirstStop(events: seq<ReadEvent>): (k: nat)
    ensures k <= |events|
    ensures forall i :: 0 <= i < k ==> !IsStop(events[i])
    ensures k < |events| ==> IsStop(events[k])
    decreases |events|
  {
    if |events| == 0 || IsStop(events[0]) then 0
    else
      var k := 1 + FirstStop(events[1..]);
      assert forall i :: 1 <= i < k ==> events[i] == events[1..][i - 1];
      k
  }

  /** All bytes the events deliver, in order. */
  function Received(events: seq<ReadEvent>): seq<byte>
    decreases |events|
  {
    if |events| == 0 then []
    else (if events[0].Data? then events[0].bytes else []) + Received(events[1..])
  }

  /** The error that ends the read loop, if it is ended by one. */
  function StopError(events: seq<ReadEvent>): Option<IoError>
  {
    var k := FirstStop(events);
    if k < |events| && events[k].Failed? then Some(events[k].err) else None
  }

  datatype Drained = Drained(buf: seq<byte>, err: Option<IoError>)

  /** The read loop of `readable`: append each chunk to the buffer; stop at a zero-byte
      read or `WouldBlock`; return at any other error. */
  function Drain(buf: seq<byte>, events: seq<ReadEvent>): (r: Drained)
    decreases |events|
  {
    if |events| == 0 then Drained(buf, None)
    else match events[0]
      case Data(bytes) =>
        if |bytes| == 0 then Drained(buf, None) else Drain(buf + bytes, events[1..])
      case WouldBlock => Drained(buf, None)
      case Failed(e) => Drained(buf, Some(e))
  }

  /** The read loop appends exactly the bytes of the events before the one that stops it,
      in order, and reports an error exactly when an error stopped it. */
  lemma {:induction false} DrainAppendsUntilStop(buf: seq<byte>, events: seq<ReadEvent>)
    ensures Drain(buf, events).buf == buf + Received(events[..FirstStop(events)])
    ensures Drain(buf, events).err == StopError(events)
    decreases |events|
  {
    if |events| == 0 || IsStop(events[0]) {
      assert events[..FirstStop(events)] == [];
    } else {
      var bytes := events[0].bytes;
      var rest := events[1..];
      var k := FirstStop(rest);
      DrainAppendsUntilStop(buf + bytes, rest);
      assert events[..FirstStop(events)] == [events[0]] + rest[..k];
      assert ([events[0]] + rest[..k])[1..] == rest[..k];
      assert FirstStop(events) < |events| <==> k < |rest|;
    }
  }

  datatype WriteResult = Written(size: nat) | WriteFailed(err: IoError)

  type Writer = seq<byte> -> WriteResult

  /** What `Write::write` promises: it never claims more bytes than it was offered. */
  ghost predicate HonestWriter(w: Writer)
  {
    forall b :: w(b).Written? ==> w(b).size <= |b|
  }

  /** The unit tests' socket, write side: with a buffer size of 0 it takes everything,
      otherwise at most `bufSize` bytes per call. */
  function TestSocketWrite(bufSize: nat): Writer
  {
    b => Written(if bufSize == 0 || |b| < bufSize then |b| else bufSize)
  }

  lemma TestSocketWriteHonest(bufSize: nat)
    ensures HonestWriter(TestSocketWrite(bufSize))
  {
  }

  /** The unit tests' socket, read side: what successive events into a 1024-byte buffer
      return, starting at `cursor` in `readBuf`, up to the zero-byte read at the end. */
  function TestSocketReads(readBuf: seq<byte>, cursor: nat): (events: seq<ReadEvent>)
    requires cursor <= |readBuf|
    ensures |events| > 0 && FirstStop(events) == |events| - 1
    ensures events[|events| - 1] == Data([])
    ensures Received(events) == readBuf[cursor..]
    decreases |readBuf| - cursor
  {
    var end := if |readBuf| < cursor + 1024 then |readBuf| else cursor + 1024;
    if end == cursor then [Data([])]
    else
      var chunk := readBuf[cursor..end];
      var rest := TestSocketReads(readBuf, end);
      var events := [Data(chunk)] + rest;
      PrependChunk(chunk, rest);
      assert readBuf[cursor..] == chunk + readBuf[end..];
      events
  }

  /** A non-empty chunk in front of a read sequence delays its stop by one read and
      prefixes the bytes it delivers. */
  lemma PrependChunk(chunk: seq<byte>, rest: seq<ReadEvent>)
    requires |chunk| > 0
    ensures FirstStop([Data(chunk)] + rest) == 1 + FirstStop(rest)
    ensures Received([Data(chunk)] + rest) == chunk + Received(rest)
  {
    assert ([Data(chunk)] + rest)[1..] == rest;
  }
}

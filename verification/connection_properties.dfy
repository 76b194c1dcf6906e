/** What each event handler of a connection does, case by case, stated against the
    queue order, the bytes received and the throttling ledger. */
module ConnectionProperties {
  import opened Basics
  import opened PrioritySendQueue
  import opened Throttling
  import opened Framing
  import opened Socket
  import opened GenericConnection

  /** `readable` appends every chunk read, in order, until the read that stops the loop.
      An error is returned with no frame taken; otherwise a frame is returned exactly when
      the sizer reports one, it is the first `size` buffered bytes, and the remainder
      stays buffered. Nothing but the receive buffer changes. */
  lemma ReadableSplitsExactly(c: Connection, events: seq<ReadEvent>, sizer: Sizer)
    requires ValidSizer(sizer)
    ensures var got := c.recvBuf + Received(events[..FirstStop(events)]);
            var r := Readable(c, events, sizer);
            && (StopError(events).Some? ==>
                  r.result == Err(Io(StopError(events).value)) && r.conn.recvBuf == got)
            && (StopError(events).None? ==> r.result.Ok?)
            && (r.result.Ok? ==> (r.result.value.None? <==> sizer(got) == 0))
            && (r.result == Ok(None) ==> r.conn.recvBuf == got)
            && (r.result.Ok? && r.result.value.Some? ==>
                  && |r.result.value.value| == sizer(got)
                  && r.result.value.value + r.conn.recvBuf == got)
  {
    var d := Drain(c.recvBuf, events);
    DrainAppendsUntilStop(c.recvBuf, events);
    var size := sizer(d.buf);
    assert d.buf[..size] + d.buf[size..] == d.buf;
  }

  /** With no local High entry while High traffic is in flight elsewhere, `writable`
      yields: the socket is not consulted (any other socket gives the same step), and the queue and process-wide values stay as they are,
      even when the queue is empty. */
  lemma WritableYields(c: Connection, w: Writer, other: Writer, registrationOk: bool)
    requires IsHighEmpty(c.queue) && c.globals.highPackets > 0
    ensures Writable(c, w, registrationOk) == Writable(c, other, registrationOk)
    ensures var r := Writable(c, w, registrationOk);
            && r.conn.queue == c.queue && r.conn.globals == c.globals
            && (registrationOk ==> r.result == Ok(LowPriority))
  {
  }

  /** On an empty queue with no High traffic anywhere, `writable` completes without
      consulting the socket and drops writable interest. */
  lemma WritableEmptyQueue(c: Connection, w: Writer, other: Writer)
    requires Len(c.queue) == 0 && c.globals.highPackets == 0
    ensures Writable(c, w, true) == Writable(c, other, true)
    ensures var r := Writable(c, w, true);
            && r.result == Ok(Complete)
            && r.conn.queue == c.queue && r.conn.globals == c.globals
            && !IsSending(r.conn)
  {
  }

  /** A write that leaves bytes unsent reports exactly the bytes taken as dequeued,
      advances the front cursor by them (staying below the payload length), keeps every
      entry queued, and returns `Ongoing`. */
  lemma WritablePartial(c: Connection, w: Writer, registrationOk: bool, size: nat)
    requires !(IsHighEmpty(c.queue) && c.globals.highPackets > 0)
    requires Len(c.queue) > 0
    requires var e := Order(c.queue)[0];
             e.pos < |e.payload| && w(e.payload[e.pos..]) == Written(size) && e.pos + size < |e.payload|
    ensures var e := Order(c.queue)[0];
            var r := Writable(c, w, registrationOk);
            && (registrationOk ==> r.result == Ok(Ongoing))
            && Len(r.conn.queue) == Len(c.queue)
            && Order(r.conn.queue) == [e.(pos := e.pos + size)] + Order(c.queue)[1..]
            && r.conn.globals.ledger.dequeued == c.globals.ledger.dequeued + size
            && r.conn.globals.ledger.enqueued == c.globals.ledger.enqueued
            && r.conn.globals.highPackets == c.globals.highPackets + (if IsHighEmpty(c.queue) then 1 else 0)
            && IsSending(r.conn) == IsSending(c)
  {
  }

  /** A write that sends the rest of the front entry reports those bytes as dequeued,
      removes the entry, gives back its High count, and returns `Complete`; once the
      queue is empty, writable interest is dropped. */
  lemma WritableCompletes(c: Connection, w: Writer, registrationOk: bool, size: nat)
    requires HonestWriter(w)
    requires !(IsHighEmpty(c.queue) && c.globals.highPackets > 0)
    requires Len(c.queue) > 0
    requires var e := Order(c.queue)[0];
             e.pos < |e.payload| && w(e.payload[e.pos..]) == Written(size) && e.pos + size >= |e.payload|
    ensures var e := Order(c.queue)[0];
            var r := Writable(c, w, registrationOk);
            && size == |e.payload| - e.pos
            && (registrationOk ==> r.result == Ok(Complete))
            && Order(r.conn.queue) == Order(c.queue)[1..]
            && r.conn.globals.ledger.dequeued == c.globals.ledger.dequeued + size
            && (IsHighEmpty(c.queue) ==> r.conn.globals.highPackets == c.globals.highPackets)
            && (!IsHighEmpty(c.queue) && c.globals.highPackets > 0 ==>
                  r.conn.globals.highPackets + 1 == c.globals.highPackets)
            && (Len(r.conn.queue) == 0 ==> !IsSending(r.conn))
  {
    var e := Order(c.queue)[0];
    var front := FrontMut(c.queue).value;
    assert front.entry == e;
    assert |e.payload[e.pos..]| == |e.payload| - e.pos;
    assert Order(Rest(front.queue)) == Order(front.queue)[1..];
  }

  /** A front entry whose cursor is already at or past its end is discarded: `Complete`,
      the socket not consulted and nothing reported to the throttling service. */
  lemma WritableDiscardsCorruptEntry(c: Connection, w: Writer, other: Writer)
    requires !(IsHighEmpty(c.queue) && c.globals.highPackets > 0)
    requires Len(c.queue) > 0 && Order(c.queue)[0].pos >= |Order(c.queue)[0].payload|
    ensures Writable(c, w, true) == Writable(c, other, true)
    ensures var r := Writable(c, w, true);
            && r.result == Ok(Complete)
            && Order(r.conn.queue) == Order(c.queue)[1..]
            && r.conn.globals.ledger == c.globals.ledger
  {
  }

  /** `writable` never touches the receive buffer or the registration flag, and keeps the
      interest set except for dropping writability when the queue ends up empty. */
  lemma WritableInterest(c: Connection, w: Writer, registrationOk: bool)
    ensures var r := Writable(c, w, registrationOk);
            && r.conn.recvBuf == c.recvBuf && r.conn.registered == c.registered
            && (Len(r.conn.queue) == 0 ==> !IsSending(r.conn) && r.conn.interest == c.interest.(writable := false))
            && (Len(r.conn.queue) > 0 ==> r.conn.interest == c.interest)
  {
  }

  /** `send` of no bytes changes nothing and returns the queue length. */
  lemma SendEmpty(c: Connection, priority: Priority, admit: bool)
    ensures Send(c, [], priority, admit) == Step(c, Ok(Len(c.queue)))
  {
  }

  /** A refused `send` returns `ThrottlingRejected` and changes nothing. */
  lemma SendRejected(c: Connection, data: seq<byte>, priority: Priority)
    requires |data| > 0
    ensures Send(c, data, priority, false) == Step(c, Err(ThrottlingRejected))
  {
  }

  /** An admitted `send` queues the data with cursor 0 behind every entry of its class
      (and ahead of every Low entry when High), counts it in the throttling ledger and, if
      High, in the High counter, asks for writability, and returns the new length. */
  lemma SendAccepted(c: Connection, data: seq<byte>, priority: Priority)
    requires |data| > 0
    ensures var r := Send(c, data, priority, true);
            && r.result == Ok(Len(c.queue) + 1)
            && Len(r.conn.queue) == Len(c.queue) + 1
            && (priority == Low ==> Order(r.conn.queue) == Order(c.queue) + [Entry(data, 0)])
            && (priority == High ==> Order(r.conn.queue) == c.queue.high + [Entry(data, 0)] + c.queue.low)
            && r.conn.globals.ledger.enqueued == c.globals.ledger.enqueued + |data|
            && r.conn.globals.ledger.dequeued == c.globals.ledger.dequeued
            && r.conn.globals.highPackets == c.globals.highPackets + (if priority == High then 1 else 0)
            && IsSending(r.conn)
            && r.conn.recvBuf == c.recvBuf && r.conn.registered == c.registered
  {
  }

  /** Registration is idempotent: after `register_socket` or `update_socket` the flag is
      set, and a second `register_socket` makes no event-loop call. */
  lemma RegisterIdempotent(c: Connection)
    ensures RegisterSocket(RegisterSocket(c).conn) == Registration(RegisterSocket(c).conn, NoCall)
    ensures RegisterSocket(UpdateSocket(c).conn).call == NoCall
  {
  }

  /** `deregister_socket` leaves the registration flag set: after it, `update_socket`
      re-registers rather than registers, and `register_socket` makes no call at all. */
  lemma DeregisterKeepsRegistration(c: Connection)
    ensures var d := DeregisterSocket(RegisterSocket(c).conn).conn;
            && d.registered
            && UpdateSocket(d).call.Reregister?
            && RegisterSocket(d).call == NoCall
  {
  }

  /** A socket error on write is returned as is: nothing is reported to the throttling
      service, the entry stays queued with its cursor unchanged, and a promotion made
      before the write is still counted. */
  lemma WritableFails(c: Connection, w: Writer, err: IoError)
    requires !(IsHighEmpty(c.queue) && c.globals.highPackets > 0)
    requires Len(c.queue) > 0
    requires var e := Order(c.queue)[0];
             e.pos < |e.payload| && w(e.payload[e.pos..]) == WriteFailed(err)
    ensures var r := Writable(c, w, true);
            && r.result == Err(Io(err))
            && Order(r.conn.queue) == Order(c.queue)
            && r.conn.globals.ledger == c.globals.ledger
            && r.conn.globals.highPackets == c.globals.highPackets + (if IsHighEmpty(c.queue) then 1 else 0)
            && r.conn.interest == c.interest
  {
  }
}

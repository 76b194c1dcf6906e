/** The source's unit tests, and the teardown example, as concrete instances of the model
    (test sizer, test socket). */
module Scenarios {
  import opened Basics
  import opened PrioritySendQueue
  import opened Throttling
  import opened Framing
  import opened Socket
  import opened GenericConnection
  import opened ConnectionProperties
  import opened Accounting

  /** `connection_write_empty`: `writable` on a fresh connection completes. */
  lemma WriteEmptyCompletes(outstanding: nat)
    ensures Writable(New(0, outstanding), TestSocketWrite(0), true).result == Ok(Complete)
  {
  }

  /** `connection_write_is_buffered`: a socket taking 1024 bytes per call leaves a
      10240-byte High entry queued after one `writable`, its cursor at 1024. */
  lemma WriteIsBuffered(outstanding: nat)
    ensures var c := New(0, outstanding);
            var c1 := c.(queue := PushBack(c.queue, Entry(seq(10240, _ => 0), 0), High),
                         globals := IncrHigh(c.globals));
            var r := Writable(c1, TestSocketWrite(1024), true);
            && r.result == Ok(Ongoing)
            && Len(r.conn.queue) == 1
            && Order(r.conn.queue)[0].pos == 1024
  {
    var c := New(0, outstanding);
    var e := Entry(seq(10240, _ => 0 as byte), 0);
    var c1 := c.(queue := PushBack(c.queue, e, High), globals := IncrHigh(c.globals));
    assert Order(c1.queue) == [e];
    WritablePartial(c1, TestSocketWrite(1024), true, 1024);
  }

  /** `connection_read`: with the length-prefix sizer, `[3, 0]` is not yet a frame;
      after one more byte the three bytes come out as a frame and the buffer is empty;
      a further `readable` with nothing to read yields nothing. */
  lemma ReadFramesByLengthPrefix()
    ensures var c0 := New(0, 0);
            var r1 := Readable(c0, TestSocketReads([3, 0], 0), TestPacketSize);
            var r2 := Readable(r1.conn, TestSocketReads([3, 0, 0], 2), TestPacketSize);
            var r3 := Readable(r2.conn, TestSocketReads([3, 0, 0], 3), TestPacketSize);
            && r1.result == Ok(None)
            && r2.result == Ok(Some([3, 0, 0])) && r2.conn.recvBuf == []
            && r3.result == Ok(None)
  {
    var c0 := New(0, 0);
    var e1 := TestSocketReads([3, 0], 0);
    var e2 := TestSocketReads([3, 0, 0], 2);
    var e3 := TestSocketReads([3, 0, 0], 3);
    assert ValidSizer(TestPacketSize);
    assert e1[..FirstStop(e1)] == e1[..|e1| - 1];
    ReadableSplitsExactly(c0, e1, TestPacketSize);
    var r1 := Readable(c0, e1, TestPacketSize);
    assert Received(e1[..|e1| - 1]) == [3, 0] by { LastReadAddsNothing(e1); }
    assert r1.conn.recvBuf == [3, 0];
    ReadableSplitsExactly(r1.conn, e2, TestPacketSize);
    assert Received(e2[..|e2| - 1]) == [0] by { LastReadAddsNothing(e2); }
    var r2 := Readable(r1.conn, e2, TestPacketSize);
    assert r1.conn.recvBuf + [0] == [3, 0, 0];
    assert TestPacketSize([3, 0, 0]) == 3;
    assert r2.result.value.value + r2.conn.recvBuf == [3, 0, 0];
    assert |r2.conn.recvBuf| == 0;
    assert r2.result.value.value == [3, 0, 0];
    ReadableSplitsExactly(r2.conn, e3, TestPacketSize);
    assert Received(e3[..|e3| - 1]) == [] by { LastReadAddsNothing(e3); }
  }

  /** The closing zero-byte read delivers nothing. */
  lemma LastReadAddsNothing(events: seq<ReadEvent>)
    requires |events| > 0 && events[|events| - 1] == Data([])
    ensures Received(events[..|events| - 1]) == Received(events)
  {
    ReceivedConcat(events[..|events| - 1], [events[|events| - 1]]);
    assert events[..|events| - 1] + [events[|events| - 1]] == events;
  }

  lemma {:induction false} ReceivedConcat(a: seq<ReadEvent>, b: seq<ReadEvent>)
    ensures Received(a + b) == Received(a) + Received(b)
    decreases |a|
  {
    if |a| == 0 {
      assert a + b == b;
    } else {
      assert (a + b)[1..] == a[1..] + b;
      ReceivedConcat(a[1..], b);
    }
  }

  /** Teardown with an unsent 500-byte Low entry and a High entry 200 bytes into 800:
      600 + 500 bytes are reported dequeued and the High counter drops by one. */
  lemma DropReconcilesQueue(g: Globals)
    requires g.highPackets > 0
    ensures var q := Queue([Entry(seq(800, _ => 0), 200)], [Entry(seq(500, _ => 0), 0)]);
            var g' := DropQueue(q, g);
            && g'.ledger.dequeued == g.ledger.dequeued + 1100
            && g'.highPackets + 1 == g.highPackets
  {
    var high := [Entry(seq(800, _ => 0), 200)];
    var low := [Entry(seq(500, _ => 0), 0)];
    var q := Queue(high, low);
    assert Pending(high) == 600 by { assert high[1..] == []; }
    assert Pending(low) == 500 by { assert low[1..] == []; }
    assert HighPending(high) == 1 by { assert high[1..] == []; }
    DropAccounting(q, g);
  }
}

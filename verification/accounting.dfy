/** The accounting invariant of a connection and the balance it guarantees: every byte
    admitted by `send` is reported as dequeued exactly once, by `write` or by `drop`;
    no queued cursor reaches its payload's end; and the High-priority counter is raised
    once for each entry in the High sub-order. */
module Accounting {
  import opened Basics
  import opened PrioritySendQueue
  import opened Throttling
  import opened Framing
  import opened Socket
  import opened GenericConnection

  /** The bytes of an entry not yet written, as `drop` counts them. */
  function Remainder(e: Entry): nat
  {
    if e.pos < |e.payload| then |e.payload| - e.pos else 0
  }

  function Pending(es: seq<Entry>): nat
    decreases |es|
  {
    if |es| == 0 then 0 else Remainder(es[0]) + Pending(es[1..])
  }

  function QueuePending(q: Queue): nat
  {
    Pending(q.high) + Pending(q.low)
  }

  /** The entries of the High sub-order that `drop` still gives a count back for. */
  function HighPending(es: seq<Entry>): nat
    decreases |es|
  {
    if |es| == 0 then 0
    else (if es[0].pos < |es[0].payload| then 1 else 0) + HighPending(es[1..])
  }

  /** Every queued entry still has bytes to write. */
  ghost predicate CursorsInRange(q: Queue)
  {
    forall e :: e in Order(q) ==> e.pos < |e.payload|
  }

  /** The invariant of a connection created by `New(h0, o0)`. */
  ghost predicate Inv(c: Connection, h0: nat, o0: nat)
  {
    && CursorsInRange(c.queue)
    && c.globals.ledger.enqueued == c.globals.ledger.dequeued + QueuePending(c.queue)
    && c.globals.ledger.outstanding == o0 + QueuePending(c.queue)
    && c.globals.highPackets == h0 + |c.queue.high|
  }

  lemma {:induction false} PendingConcat(a: seq<Entry>, b: seq<Entry>)
    ensures Pending(a + b) == Pending(a) + Pending(b)
    decreases |a|
  {
    if |a| == 0 {
      assert a + b == b;
    } else {
      assert (a + b)[1..] == a[1..] + b;
      PendingConcat(a[1..], b);
    }
  }

  lemma QueuePendingInOrder(q: Queue)
    ensures QueuePending(q) == Pending(Order(q))
  {
    PendingConcat(q.high, q.low);
  }

  /** The pending bytes of a non-empty queue are those of its front entry plus the rest. */
  lemma QueuePendingFront(q: Queue)
    requires Len(q) > 0
    ensures QueuePending(q) == Remainder(Order(q)[0]) + Pending(Order(q)[1..])
  {
    QueuePendingInOrder(q);
  }

  lemma {:induction false} HighPendingAll(es: seq<Entry>)
    requires forall e :: e in es ==> e.pos < |e.payload|
    ensures HighPending(es) == |es|
    decreases |es|
  {
    if |es| > 0 {
      assert es[0] in es;
      assert forall e :: e in es[1..] ==> e in es;
      HighPendingAll(es[1..]);
    }
  }

  /** What `drop` reports: the unsent remainder of every entry as dequeued, and one
      counter decrement per High entry with bytes left. */
  lemma {:induction false} DropAccounting(q: Queue, g: Globals)
    ensures DropQueue(q, g).ledger.dequeued == g.ledger.dequeued + QueuePending(q)
    ensures DropQueue(q, g).ledger.enqueued == g.ledger.enqueued
    ensures g.ledger.outstanding >= QueuePending(q) ==>
              DropQueue(q, g).ledger.outstanding + QueuePending(q) == g.ledger.outstanding
    ensures g.highPackets >= HighPending(q.high) ==>
              DropQueue(q, g).highPackets + HighPending(q.high) == g.highPackets
    decreases Len(q)
  {
    match PopFront(q)
    case None =>
    case Some(p) =>
      var e := p.entry;
      var g' :=
        if e.pos < |e.payload| then
          var g1 := g.(ledger := OnDequeue(g.ledger, |e.payload| - e.pos));
          if p.priority == High then DecrHigh(g1) else g1
        else g;
      assert DropQueue(q, g) == DropQueue(p.rest, g');
      QueuePendingInOrder(q);
      QueuePendingInOrder(p.rest);
      PendingConcat([e], Order(p.rest));
      assert ([e] + Order(p.rest))[1..] == Order(p.rest);
      assert QueuePending(q) == Remainder(e) + QueuePending(p.rest);
      if p.priority == High {
        assert e == q.high[0] && p.rest.high == q.high[1..];
        assert HighPending(q.high) == (if e.pos < |e.payload| then 1 else 0) + HighPending(p.rest.high);
      } else {
        assert p.rest.high == q.high;
      }
      DropAccounting(p.rest, g');
  }

  /** A fresh connection satisfies the invariant. */
  lemma NewInv(h0: nat, o0: nat)
    ensures Inv(New(h0, o0), h0, o0)
  {
  }

  /** `send` keeps the invariant: admitted bytes become pending with cursor 0. */
  lemma SendPreservesInv(c: Connection, h0: nat, o0: nat, data: seq<byte>, priority: Priority, admit: bool)
    requires Inv(c, h0, o0)
    ensures Inv(Send(c, data, priority, admit).conn, h0, o0)
  {
    var r := Send(c, data, priority, admit);
    if |data| > 0 && admit {
      var e := Entry(data, 0);
      var q := PushBack(c.queue, e, priority);
      assert r.conn.queue == q;
      QueuePendingInOrder(c.queue);
      QueuePendingInOrder(q);
      assert forall x :: x in Order(q) ==> x in multiset(Order(q));
      assert forall x :: x in multiset(Order(q)) ==> x in Order(c.queue) || x == e;
      if priority == High {
        PendingConcat(c.queue.high + [e], c.queue.low);
        PendingConcat(c.queue.high, [e]);
      } else {
        PendingConcat(Order(c.queue), [e]);
      }
      assert Pending([e]) == |data|;
    }
  }

  /** `readable` and the registration operations keep the invariant: they do not touch
      the queue or the process-wide values. */
  lemma ReadablePreservesInv(c: Connection, h0: nat, o0: nat, events: seq<ReadEvent>, sizer: Sizer)
    requires Inv(c, h0, o0) && ValidSizer(sizer)
    ensures Inv(Readable(c, events, sizer).conn, h0, o0)
  {
  }

  /** Replacing the front entry changes the pending bytes by the change in its remainder. */
  lemma UpdateFrontPending(q: Queue, e: Entry)
    requires !IsHighEmpty(q)
    ensures QueuePending(UpdateFront(q, e)) + Remainder(Order(q)[0]) == QueuePending(q) + Remainder(e)
  {
    var r := UpdateFront(q, e);
    QueuePendingFront(q);
    QueuePendingFront(r);
    assert Order(r)[1..] == Order(q)[1..];
  }

  /** Selecting the front entry keeps the invariant; a promotion raises the counter by
      exactly the one entry it moves into the High sub-order. */
  lemma FrontMutPreservesInv(c: Connection, h0: nat, o0: nat)
    requires Inv(c, h0, o0) && Len(c.queue) > 0
    requires !(IsHighEmpty(c.queue) && HasHighPriorityPackets(c.globals))
    ensures var front := FrontMut(c.queue).value;
            Inv(c.(queue := front.queue,
                   globals := if front.promoted then IncrHigh(c.globals) else c.globals), h0, o0)
  {
    var front := FrontMut(c.queue).value;
    QueuePendingInOrder(c.queue);
    QueuePendingInOrder(front.queue);
  }

  /** A partial write moves the front cursor forward by the bytes it reports dequeued. */
  lemma AdvancePreservesInv(c: Connection, h0: nat, o0: nat, size: nat)
    requires Inv(c, h0, o0) && !IsHighEmpty(c.queue)
    requires c.queue.high[0].pos + size < |c.queue.high[0].payload|
    ensures var e := c.queue.high[0];
            Inv(c.(queue := UpdateFront(c.queue, e.(pos := e.pos + size)),
                   globals := c.globals.(ledger := OnDequeue(c.globals.ledger, size))), h0, o0)
  {
    var q := c.queue;
    var e := q.high[0];
    var e' := e.(pos := e.pos + size);
    var q' := UpdateFront(q, e');
    assert Order(q)[0] == e;
    QueuePendingFront(q);
    UpdateFrontPending(q, e');
    assert forall x :: x in Order(q') ==> x == e' || x in Order(q)[1..];
    assert forall x :: x in Order(q)[1..] ==> x in Order(q);
  }

  /** A completing write reports the front entry's remainder dequeued; popping the entry
      and giving back its count keeps the invariant. */
  lemma FinishPreservesInv(c: Connection, h0: nat, o0: nat, size: nat)
    requires Inv(c, h0, o0) && !IsHighEmpty(c.queue)
    requires size == Remainder(c.queue.high[0])
    ensures Inv(c.(queue := Rest(c.queue),
                   globals := DecrHigh(c.globals.(ledger := OnDequeue(c.globals.ledger, size)))), h0, o0)
  {
    var q := c.queue;
    var q' := Rest(q);
    assert Order(q)[0] == q.high[0];
    QueuePendingFront(q);
    QueuePendingInOrder(q');
    assert forall x :: x in Order(q') ==> x in Order(q);
  }

  /** The state `write` works on once it has chosen the front entry. */
  function Selected(c: Connection): Connection
    requires Len(c.queue) > 0
  {
    var front := FrontMut(c.queue).value;
    c.(queue := front.queue,
       globals := if front.promoted then IncrHigh(c.globals) else c.globals)
  }

  /** The unsent part of the entry `write` chooses. */
  function Unsent(c: Connection): seq<byte>
    requires Len(c.queue) > 0
  {
    var e := FrontMut(c.queue).value.entry;
    if e.pos <= |e.payload| then e.payload[e.pos..] else []
  }

  lemma WritableWrittenPreservesInv(c: Connection, h0: nat, o0: nat, w: Writer, registrationOk: bool, size: nat)
    requires Inv(c, h0, o0) && HonestWriter(w) && Len(c.queue) > 0
    requires !(IsHighEmpty(c.queue) && HasHighPriorityPackets(c.globals))
    requires w(Unsent(c)) == Written(size)
    ensures Inv(Writable(c, w, registrationOk).conn, h0, o0)
  {
    var r := Writable(c, w, registrationOk);
    var e := FrontMut(c.queue).value.entry;
    var c1 := Selected(c);
    FrontMutPreservesInv(c, h0, o0);
    assert e in Order(c1.queue);
    var g1 := c1.globals.(ledger := OnDequeue(c1.globals.ledger, size));
    if e.pos + size < |e.payload| {
      AdvancePreservesInv(c1, h0, o0, size);
      assert r.conn.queue == UpdateFront(c1.queue, e.(pos := e.pos + size));
      assert r.conn.globals == g1;
    } else {
      FinishPreservesInv(c1, h0, o0, size);
      assert Write(c, w) == Step(c1.(globals := DecrHigh(g1)), Ok(Complete));
      assert r.conn.queue == Rest(c1.queue);
      assert r.conn.globals == DecrHigh(g1);
    }
  }

  /** `writable` keeps the invariant: a write reports exactly the bytes it takes off the
      front entry, a finished entry leaves the queue with its counter given back, and a
      promoted entry is counted exactly while it sits in the High sub-order. */
  lemma WritablePreservesInv(c: Connection, h0: nat, o0: nat, w: Writer, registrationOk: bool)
    requires Inv(c, h0, o0) && HonestWriter(w)
    ensures Inv(Writable(c, w, registrationOk).conn, h0, o0)
  {
    var r := Writable(c, w, registrationOk);
    if IsHighEmpty(c.queue) && HasHighPriorityPackets(c.globals) {
      assert r.conn.queue == c.queue;
    } else if Len(c.queue) == 0 {
      assert r.conn.queue == c.queue;
    } else {
      var c1 := Selected(c);
      FrontMutPreservesInv(c, h0, o0);
      match w(Unsent(c))
      case WriteFailed(err) =>
        assert r.conn.queue == c1.queue && r.conn.globals == c1.globals;
      case Written(size) =>
        WritableWrittenPreservesInv(c, h0, o0, w, registrationOk, size);
    }
  }

  /** One step of a connection's life. */
  datatype Op =
    | SendOp(data: seq<byte>, priority: Priority, admit: bool)
    | WritableOp(w: Writer, registrationOk: bool)
    | ReadableOp(events: seq<ReadEvent>, sizer: Sizer)
    | RegisterOp
    | UpdateOp
    | DeregisterOp

  /** The socket and sizer keep their contracts. */
  ghost predicate Allowed(op: Op)
  {
    && (op.WritableOp? ==> HonestWriter(op.w))
    && (op.ReadableOp? ==> ValidSizer(op.sizer))
  }

  function Apply(c: Connection, op: Op): Connection
    requires Allowed(op)
  {
    match op
    case SendOp(data, priority, admit) => Send(c, data, priority, admit).conn
    case WritableOp(w, ok) => Writable(c, w, ok).conn
    case ReadableOp(events, sizer) => Readable(c, events, sizer).conn
    case RegisterOp => RegisterSocket(c).conn
    case UpdateOp => UpdateSocket(c).conn
    case DeregisterOp => DeregisterSocket(c).conn
  }

  function Run(c: Connection, ops: seq<Op>): Connection
    requires forall i :: 0 <= i < |ops| ==> Allowed(ops[i])
    decreases |ops|
  {
    if |ops| == 0 then c else Run(Apply(c, ops[0]), ops[1..])
  }

  lemma {:induction false} RunPreservesInv(c: Connection, h0: nat, o0: nat, ops: seq<Op>)
    requires forall i :: 0 <= i < |ops| ==> Allowed(ops[i])
    requires Inv(c, h0, o0)
    ensures Inv(Run(c, ops), h0, o0)
    decreases |ops|
  {
    if |ops| > 0 {
      match ops[0] {
        case SendOp(data, priority, admit) => SendPreservesInv(c, h0, o0, data, priority, admit);
        case WritableOp(w, ok) => WritablePreservesInv(c, h0, o0, w, ok);
        case ReadableOp(events, sizer) => ReadablePreservesInv(c, h0, o0, events, sizer);
        case RegisterOp =>
        case UpdateOp =>
        case DeregisterOp =>
      }
      RunPreservesInv(Apply(c, ops[0]), h0, o0, ops[1..]);
    }
  }

  /** Tearing down a connection that keeps the invariant balances the ledger: as many
      bytes have been reported dequeued as were admitted, and the outstanding total is
      back where it was when the connection was created. */
  lemma DropBalancesLedger(c: Connection, h0: nat, o0: nat)
    requires Inv(c, h0, o0)
    ensures Drop(c).ledger.enqueued == Drop(c).ledger.dequeued
    ensures Drop(c).ledger.outstanding == o0
  {
    DropAccounting(c.queue, c.globals);
  }

  /** Tearing down a connection that keeps the invariant gives back every count its
      High entries (sent, or promoted when no High entry existed) still hold. */
  lemma DropRestoresHighCounter(c: Connection, h0: nat, o0: nat)
    requires Inv(c, h0, o0)
    ensures Drop(c).highPackets == h0
  {
    assert forall e :: e in c.queue.high ==> e in Order(c.queue);
    HighPendingAll(c.queue.high);
    DropAccounting(c.queue, c.globals);
  }

  /** Over a connection's whole life, from `New` through any handled events to `drop`,
      the bytes passed to `on_enqueue` equal the bytes passed to `on_dequeue`, and both
      process-wide values return to their starting point. */
  lemma LifetimeBalance(h0: nat, o0: nat, ops: seq<Op>)
    requires forall i :: 0 <= i < |ops| ==> Allowed(ops[i])
    ensures Drop(Run(New(h0, o0), ops)).ledger.enqueued == Drop(Run(New(h0, o0), ops)).ledger.dequeued
    ensures Drop(Run(New(h0, o0), ops)).ledger.outstanding == o0
    ensures Drop(Run(New(h0, o0), ops)).highPackets == h0
  {
    NewInv(h0, o0);
    RunPreservesInv(New(h0, o0), h0, o0, ops);
    DropBalancesLedger(Run(New(h0, o0), ops), h0, o0);
    DropRestoresHighCounter(Run(New(h0, o0), ops), h0, o0);
  }
}

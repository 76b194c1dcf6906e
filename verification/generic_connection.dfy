/** One connection: a receive buffer, a priority send queue, an interest set and a
    registration flag, together with the two process-wide values it updates (the
    in-flight High-priority counter and the throttling ledger). Every event handler is a
    pure transition from one connection record to the next. */
module GenericConnection {
  import opened Basics
  import opened PrioritySendQueue
  import opened Throttling
  import opened Framing
  import opened Socket

  /** The readiness interest registered with the event loop. */
  datatype Interest = Interest(hup: bool, readable: bool, writable: bool)

  datatype WriteStatus = Ongoing | LowPriority | Complete

  /** The process-wide state a connection shares with every other connection:
      `HIGH_PRIORITY_PACKETS` and the throttling service. */
  datatype Globals = Globals(highPackets: nat, ledger: Ledger)

  datatype Connection = Connection(
    recvBuf: seq<byte>,
    queue: Queue,
    interest: Interest,
    registered: bool,
    globals: Globals)

  /** The connection after a handler, and what the handler returned. */
  datatype Step<+T> = Step(conn: Connection, result: Result<T, Error>)

  /** The calls a registration operation makes on the event loop (their outcome is
      discarded by the source, so it is not an input here). */
  datatype LoopCall = NoCall | Register(interest: Interest) | Reregister(interest: Interest) | Deregister

  datatype Registration = Registration(conn: Connection, call: LoopCall)

  /** A fresh connection: empty buffer and queue, interest in hang-up and readability,
      not registered. The ledger's running totals start at zero. */
  function New(highPackets: nat, outstanding: nat): (c: Connection)
    ensures Len(c.queue) == 0 && |c.recvBuf| == 0
    ensures !c.interest.writable && !c.registered
  {
    Connection([], Empty(), Interest(true, true, false), false,
               Globals(highPackets, Ledger(outstanding, 0, 0)))
  }

  function IncrHigh(g: Globals): Globals
  {
    g.(highPackets := g.highPackets + 1)
  }

  /** `decr_high_priority_packets`. The source asserts the counter is not already zero;
      `Accounting` proves that every decrement happens on a positive counter, so the
      floor at zero below is never reached from a well-formed connection. */
  function DecrHigh(g: Globals): Globals
  {
    g.(highPackets := if g.highPackets > 0 then g.highPackets - 1 else 0)
  }

  predicate HasHighPriorityPackets(g: Globals)
  {
    g.highPackets > 0
  }

  /** `readable`: drain the socket into the receive buffer, then split off one frame if
      the sizer reports one. */
  function Readable(c: Connection, events: seq<ReadEvent>, sizer: Sizer): (r: Step<Option<seq<byte>>>)
    requires ValidSizer(sizer)
    ensures r.conn.queue == c.queue && r.conn.globals == c.globals
    ensures r.conn.interest == c.interest && r.conn.registered == c.registered
  {
    var d := Drain(c.recvBuf, events);
    if d.err.Some? then
      Step(c.(recvBuf := d.buf), Err(Io(d.err.value)))
    else
      var size := sizer(d.buf);
      if size == 0 then Step(c.(recvBuf := d.buf), Ok(None))
      else Step(c.(recvBuf := d.buf[size..]), Ok(Some(d.buf[..size])))
  }

  /** `write`: yield to High-priority traffic elsewhere, or write the front entry from
      its cursor and account the bytes the socket took. */
  function Write(c: Connection, w: Writer): Step<WriteStatus>
  {
    if IsHighEmpty(c.queue) && HasHighPriorityPackets(c.globals) then
      Step(c, Ok(LowPriority))
    else match FrontMut(c.queue)
      case None => Step(c, Ok(Complete))
      case Some(front) =>
        var g := if front.promoted then IncrHigh(c.globals) else c.globals;
        var c1 := c.(queue := front.queue, globals := g);
        var e := front.entry;
        if e.pos >= |e.payload| then
          Step(c1, Ok(Complete))
        else match w(e.payload[e.pos..])
          case WriteFailed(err) => Step(c1, Err(Io(err)))
          case Written(size) =>
            var g1 := g.(ledger := OnDequeue(g.ledger, size));
            if e.pos + size < |e.payload| then
              Step(c1.(queue := UpdateFront(front.queue, e.(pos := e.pos + size)), globals := g1),
                   Ok(Ongoing))
            else
              Step(c1.(globals := DecrHigh(g1)), Ok(Complete))
  }

  /** `writable`: `write`, pop the entry on `Complete`, drop writable interest once the
      queue is empty, then refresh the registration (whose failure is returned). */
  function Writable(c: Connection, w: Writer, registrationOk: bool): Step<WriteStatus>
  {
    var s := Write(c, w);
    var q := if s.result.Ok? && s.result.value == Complete then Rest(s.conn.queue) else s.conn.queue;
    var interest := if Len(q) == 0 then s.conn.interest.(writable := false) else s.conn.interest;
    Step(s.conn.(queue := q, interest := interest),
         if registrationOk then s.result else Err(RegistrationFailed))
  }

  /** `send`: admit the bytes with the throttling service, queue them with cursor 0,
      count a High entry, and ask for writability. Returns the queue length. */
  function Send(c: Connection, data: seq<byte>, priority: Priority, admit: bool): Step<nat>
  {
    if |data| == 0 then Step(c, Ok(Len(c.queue)))
    else match OnEnqueue(c.globals.ledger, |data|, admit)
      case Err(e) => Step(c, Err(e))
      case Ok(l) =>
        var q := PushBack(c.queue, Entry(data, 0), priority);
        var g := c.globals.(ledger := l);
        var g' := if priority == High then IncrHigh(g) else g;
        Step(c.(queue := q, globals := g', interest := c.interest.(writable := true)), Ok(Len(q)))
  }

  function IsSending(c: Connection): bool
  {
    c.interest.writable
  }

  /** `Drop::drop`: pop every remaining entry; one with unsent bytes has them reported
      as dequeued and, if it comes out of the High sub-order, gives back its count. */
  function DropQueue(q: Queue, g: Globals): Globals
    decreases Len(q)
  {
    match PopFront(q)
    case None => g
    case Some(p) =>
      var e := p.entry;
      var g' :=
        if e.pos < |e.payload| then
          var g1 := g.(ledger := OnDequeue(g.ledger, |e.payload| - e.pos));
          if p.priority == High then DecrHigh(g1) else g1
        else g;
      DropQueue(p.rest, g')
  }

  function Drop(c: Connection): Globals
  {
    DropQueue(c.queue, c.globals)
  }

  /** `register_socket`: a no-op once registered; otherwise register with the current
      interest and set the flag whatever the event loop answered. */
  function RegisterSocket(c: Connection): (r: Registration)
    ensures r.conn.registered
    ensures r.conn == c.(registered := true)
    ensures r.call.NoCall? <==> c.registered
  {
    if c.registered then Registration(c, NoCall)
    else Registration(c.(registered := true), Register(c.interest))
  }

  /** `update_socket`: register if not yet registered, otherwise re-register with the
      current interest. */
  function UpdateSocket(c: Connection): (r: Registration)
    ensures r.conn == c.(registered := true)
    ensures r.call.Register? <==> !c.registered
    ensures (r.call.Register? || r.call.Reregister?) && r.call.interest == c.interest
  {
    if !c.registered then RegisterSocket(c)
    else Registration(c, Reregister(c.interest))
  }

  /** `deregister_socket`: deregister, ignoring the outcome; the flag is left as it is. */
  function DeregisterSocket(c: Connection): (r: Registration)
    ensures r.conn == c && r.call == Deregister
  {
    Registration(c, Deregister)
  }
}

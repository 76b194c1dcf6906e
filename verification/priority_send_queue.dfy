/** The priority send queue a connection owns: two FIFO sub-orders, High and Low.
    Entries are `(payload, cursor)` pairs; the cursor counts the bytes already written.

    The queue's own implementation is not part of this model. What is modelled is the
    behaviour the connection relies on: `push_back` appends to the sub-order of the
    given priority, `pop_front` takes the oldest High entry first, and `front_mut`
    returns the next entry to write together with a `promoted` flag that is true when
    no High entry existed and a Low entry had to be chosen. A promoted entry is moved
    into the High sub-order, so it is treated as High until it leaves the queue. */
module PrioritySendQueue {
  import opened Basics

  datatype Priority = High | Low

  /** A queued payload and its write cursor (`pos`). */
  datatype Entry = Entry(payload: seq<byte>, pos: nat)

  datatype Queue = Queue(high: seq<Entry>, low: seq<Entry>)

  /** What `pop_front` hands back: the entry, the sub-order it came from, and the rest. */
  datatype Popped = Popped(entry: Entry, priority: Priority, rest: Queue)

  /** What `front_mut` hands back: the entry to write, whether it was promoted, and the
      queue after the promotion (the entry is then the front of the High sub-order). */
  datatype Front = Front(entry: Entry, promoted: bool, queue: Queue)

  function Empty(): Queue { Queue([], []) }

  /** `len()`: entries across both sub-orders. */
  function Len(q: Queue): nat { |q.high| + |q.low| }

  /** `is_send_queue_empty(High)`. */
  predicate IsHighEmpty(q: Queue) { |q.high| == 0 }

  /** The order in which repeated `pop_front` calls hand the entries out. */
  function Order(q: Queue): seq<Entry> { q.high + q.low }

  function PushBack(q: Queue, e: Entry, p: Priority): (r: Queue)
    ensures Len(r) == Len(q) + 1
    ensures multiset(Order(r)) == multiset(Order(q)) + multiset{e}
    ensures p == Low ==> Order(r) == Order(q) + [e]
    ensures p == High ==> Order(r) == q.high + [e] + q.low
  {
    match p
    case High => q.(high := q.high + [e])
    case Low => q.(low := q.low + [e])
  }

  function PopFront(q: Queue): (r: Option<Popped>)
    ensures r.None? <==> Len(q) == 0
    ensures r.Some? ==> Order(q) == [r.value.entry] + Order(r.value.rest)
    ensures r.Some? ==> Len(r.value.rest) + 1 == Len(q)
    ensures r.Some? ==> (r.value.priority == High <==> !IsHighEmpty(q))
    ensures r.Some? ==> |r.value.rest.high| == if r.value.priority == High then |q.high| - 1 else |q.high|
  {
    if |q.high| > 0 then
      assert Order(q) == [q.high[0]] + (q.high[1..] + q.low);
      Some(Popped(q.high[0], High, q.(high := q.high[1..])))
    else if |q.low| > 0 then
      Some(Popped(q.low[0], Low, q.(low := q.low[1..])))
    else None
  }

  /** The queue left after `pop_front`, whatever it returned. */
  function Rest(q: Queue): (r: Queue)
    ensures Len(q) > 0 ==> Len(r) + 1 == Len(q) && Order(r) == Order(q)[1..]
    ensures Len(q) == 0 ==> r == q
    ensures !IsHighEmpty(q) ==> |r.high| + 1 == |q.high|
  {
    match PopFront(q)
    case None => q
    case Some(p) => p.rest
  }

  function FrontMut(q: Queue): (r: Option<Front>)
    ensures r.None? <==> Len(q) == 0
    ensures r.Some? ==> r.value.entry == Order(q)[0]
    ensures r.Some? ==> (r.value.promoted <==> IsHighEmpty(q))
    ensures r.Some? ==> Order(r.value.queue) == Order(q)
    ensures r.Some? ==> !IsHighEmpty(r.value.queue) && r.value.queue.high[0] == r.value.entry
    ensures r.Some? && !r.value.promoted ==> r.value.queue == q
    ensures r.Some? && r.value.promoted ==> |r.value.queue.high| == 1
  {
    if |q.high| > 0 then Some(Front(q.high[0], false, q))
    else if |q.low| > 0 then
      assert Order(Queue([q.low[0]], q.low[1..])) == q.low;
      Some(Front(q.low[0], true, Queue([q.low[0]], q.low[1..])))
    else None
  }

  /** Writing through the mutable reference `front_mut` returned: replaces the entry
      at the front of the High sub-order. */
  function UpdateFront(q: Queue, e: Entry): (r: Queue)
    requires !IsHighEmpty(q)
    ensures Len(r) == Len(q)
    ensures Order(r) == [e] + Order(q)[1..]
    ensures |r.high| == |q.high|
  {
    assert Order(q)[1..] == q.high[1..] + q.low;
    q.(high := q.high[0 := e])
  }

  /** The assumed queue behaviour the High counter's accounting rests on: an entry
      `front_mut` promoted is later handed out by `pop_front` as High. */
  lemma PromotedEntryPopsAsHigh(q: Queue)
    requires Len(q) > 0 && IsHighEmpty(q)
    ensures var f := FrontMut(q).value;
            && f.promoted
            && PopFront(f.queue) == Some(Popped(f.entry, High, Rest(f.queue)))
  {
  }
}

/** The process-wide throttling service, seen as a ledger. Its implementation is not
    part of this model: the admission decision of `on_enqueue` is an input, and
    `on_dequeue` subtracts from the outstanding total without going below zero.
    Besides the outstanding total the ledger keeps two running totals, the bytes admitted
    by `on_enqueue` and the bytes passed to `on_dequeue`, which the balance lemmas are
    stated over. */
module Throttling {
  import opened Basics

  datatype Ledger = Ledger(outstanding: nat, enqueued: nat, dequeued: nat)

  /** `on_enqueue(bytes)`: admitted bytes are added to the outstanding total; a refusal
      is `ThrottlingRejected` and leaves the ledger as it was. */
  function OnEnqueue(l: Ledger, bytes: nat, admit: bool): (r: Result<Ledger, Error>)
    ensures r.Ok? <==> admit
    ensures r.Err? ==> r.error == ThrottlingRejected
    ensures r.Ok? ==> r.value.outstanding - l.outstanding == r.value.enqueued - l.enqueued == bytes
    ensures r.Ok? ==> r.value.dequeued == l.dequeued
  {
    if admit then
      Ok(Ledger(l.outstanding + bytes, l.enqueued + bytes, l.dequeued))
    else
      Err(ThrottlingRejected)
  }

  /** `on_dequeue(bytes)`: the outstanding total drops by `bytes`, never below zero. */
  function OnDequeue(l: Ledger, bytes: nat): (r: Ledger)
    ensures r.dequeued - l.dequeued == bytes && r.enqueued == l.enqueued
    ensures r.outstanding <= l.outstanding
    ensures bytes <= l.outstanding ==> r.outstanding + bytes == l.outstanding
  {
    Ledger(if bytes <= l.outstanding then l.outstanding - bytes else 0,
           l.enqueued, l.dequeued + bytes)
  }
}

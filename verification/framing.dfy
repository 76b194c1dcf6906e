/** The framing policy (`PacketSizer`): a pure function from the buffered bytes to the
    length of the first complete frame, 0 meaning "not yet". */
module Framing {
  import opened Basics

  type Sizer = seq<byte> -> nat

  /** What the connection needs of a sizer: it never claims more bytes than are buffered
      (the split that follows would otherwise fail). */
  ghost predicate ValidSizer(sizer: Sizer)
  {
    forall b :: sizer(b) <= |b|
  }

  /** The sizer of the unit tests: the first byte is the length of the whole frame,
      the length byte included. */
  function TestPacketSize(b: seq<byte>): (n: nat)
    ensures n <= |b|
    ensures n > 0 <==> |b| >= 1 && 0 < b[0] as int <= |b|
    ensures n > 0 ==> n == b[0] as int
  {
    if |b| >= 1 then
      var size := b[0] as int;
      if |b| >= size then size else 0
    else 0
  }
}

/**
 * The packet view (network/packet.go): an immutable window over a payload,
 * with the payload's position in the capture (GlobalOffset), the window's
 * start inside the payload (LocalOffset) and the frame's time offset.
 */
module Network {
  import opened Wrappers
  import opened Bytes
  import OpCodes

  datatype Packet = Packet(globalOffset: nat, localOffset: nat, timeOffset: int, data: seq<byte>)

  /**
   * The view that starts n bytes further on, or None when n is exactly the
   * window's length. Go slices `Data[n:]` with no other guard, so n beyond the
   * length is a runtime panic: callers must not ask for it.
   */
  function Next(p: Packet, n: nat): (r: Option<Packet>)
    requires n <= |p.data|
    ensures r.None? <==> n == |p.data|
    ensures r.Some? ==> r.value.data == p.data[n..] && r.value.localOffset == p.localOffset + n
    ensures r.Some? ==> r.value.globalOffset == p.globalOffset && r.value.timeOffset == p.timeOffset
    ensures r.Some? ==> r.value.localOffset + |r.value.data| == p.localOffset + |p.data|
  {
    if n == |p.data| then None
    else Some(Packet(p.globalOffset, p.localOffset + n, p.timeOffset, p.data[n..]))
  }

  /** The first byte, or 0 for an empty window. */
  function OpCode(p: Packet): (c: OpCodes.OpCode)
    ensures |p.data| == 0 ==> c == 0
    ensures |p.data| > 0 ==> c == p.data[0]
  {
    if |p.data| == 0 then 0 else p.data[0]
  }

  /** The two numbers `Offset()` prints: the 16-byte row and the column in it. */
  function OffsetParts(p: Packet): (r: (nat, nat))
    ensures r.0 % 16 == 0 && r.1 < 16
    ensures r.0 + r.1 == p.globalOffset + p.localOffset
  {
    var pos := p.globalOffset + p.localOffset;
    (pos - pos % 16, pos % 16)
  }

  /** The window reached after stepping k times by one byte. */
  function Advance(p: Packet, k: nat): (r: Option<Packet>)
    requires k <= |p.data|
    decreases k
  {
    if k == 0 then Some(p)
    else
      match Advance(p, k - 1)
      case None => None
      case Some(q) => if |q.data| == 0 then None else Next(q, 1)
  }

  /**
   * Chaining Next(1) from a non-empty window visits every later start
   * offset in turn, keeps LocalOffset + length fixed, and ends in None
   * exactly after the last byte: it never yields a window past the end.
   */
  lemma {:induction false} AdvanceVisitsEachOffset(p: Packet, k: nat)
    requires 0 < |p.data| && k <= |p.data|
    ensures k < |p.data| ==> Advance(p, k) == Some(Packet(p.globalOffset, p.localOffset + k, p.timeOffset, p.data[k..]))
    ensures k == |p.data| ==> Advance(p, k).None?
  {
    if k > 0 {
      AdvanceVisitsEachOffset(p, k - 1);
    }
  }
}

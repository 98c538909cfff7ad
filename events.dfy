/**
 * What a packet decoder (parser/packet_*.go) returns: the decoded event and
 * the rest of the packet to decode next (nil when the event used every
 * byte), or an error. A decoder whose cursor ends past the data slices out
 * of range, which in Go is a runtime panic; the model makes it the explicit
 * outcome OutOfRange.
 */
module Events {
  import opened Wrappers
  import opened Bytes
  import opened Network
  import OpCodes
  import MessageModes
  import Helpers

  datatype Event =
    | Talk(name: seq<byte>, mode: MessageModes.MessageMode, msg: seq<byte>)
    | MoveCreature
    | ChangeOnMap
    | CreatureHealth
    | MarkCreature
    | PlayerData
    | LoginOrPendingState
    | MapLeftRow
      /** What the dispatch loop emits for a packet no decoder handles: its opcode. */
    | Unhandled(code: OpCodes.OpCode)

  datatype Decoded =
    | Decoded(event: Event, rest: Option<Packet>)
    | Failed(error: Helpers.ParseError)
    | OutOfRange

  /** The opcode check every decoder starts with. */
  function WrongOpCode(p: Packet, expected: OpCodes.OpCode): (d: Decoded)
    ensures d.Failed?
  {
    Failed(Helpers.UnexpectedOpCode(expected, OpCode(p)))
  }

  /** The end of a decoder that returns `p.Next(cur)`. */
  function Resume(p: Packet, cur: nat, ev: Event): (d: Decoded)
    ensures !d.Failed?
    ensures d.OutOfRange? <==> cur > |p.data|
    ensures d.Decoded? ==> d.event == ev && (d.rest.None? <==> cur == |p.data|)
    ensures d.Decoded? && d.rest.Some? ==>
      && |d.rest.value.data| == |p.data| - cur
      && d.rest.value.data == p.data[|p.data| - |d.rest.value.data|..]
      && d.rest.value.localOffset + |d.rest.value.data| == p.localOffset + |p.data|
      && d.rest.value.globalOffset == p.globalOffset
      && d.rest.value.timeOffset == p.timeOffset
  {
    if cur > |p.data| then OutOfRange else Decoded(ev, Next(p, cur))
  }

  /**
   * The end of a decoder that builds its remainder by hand from `Data[cur:]`
   * (packet_talk.go, packet_move_creature.go): nil when the cursor is at the
   * end, otherwise the rest of the bytes with the parent packet's offsets.
   */
  function Slice(p: Packet, cur: nat, ev: Event): (d: Decoded)
    ensures !d.Failed?
    ensures d.OutOfRange? <==> cur > |p.data|
    ensures d.Decoded? ==> d.event == ev && (d.rest.None? <==> cur == |p.data|)
    ensures d.Decoded? && d.rest.Some? ==>
      && |d.rest.value.data| == |p.data| - cur
      && d.rest.value.data == p.data[|p.data| - |d.rest.value.data|..]
      && d.rest.value.localOffset == p.localOffset
      && d.rest.value.globalOffset == p.globalOffset
      && d.rest.value.timeOffset == p.timeOffset
  {
    if cur == |p.data| then Decoded(ev, None)
    else if cur > |p.data| then OutOfRange
    else Decoded(ev, Some(Packet(p.globalOffset, p.localOffset, p.timeOffset, p.data[cur..])))
  }
}

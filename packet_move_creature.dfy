/**
 * The MoveCreature packet (parser/packet_move_creature.go): opcode 109, a
 * mapped thing (a u16 and four bytes) and a 5-byte position. The event keeps
 * no fields.
 */
module MoveCreaturePacket {
  import opened Wrappers
  import opened Bytes
  import opened Network
  import opened Events
  import opened Helpers
  import ByteReader
  import OpCodes

  /**
   * `parseMoveCreature`: the only read is the mapped thing's u16, so the
   * only failure is that read; everything else is skipped, which is why a
   * payload of 3 to 11 bytes gets past the reads and slices out of range.
   */
  function DecodeMoveCreature(p: Packet): (d: Decoded)
    ensures OpCode(p) != OpCodes.MoveCreature ==> d == WrongOpCode(p, OpCodes.MoveCreature)
    ensures OpCode(p) == OpCodes.MoveCreature && |p.data| < 3 ==>
      d == Failed(Io(if |p.data| == 1 then EOF else UnexpectedEOF))
    ensures OpCode(p) == OpCodes.MoveCreature && 3 <= |p.data| < 12 ==> d.OutOfRange?
    ensures OpCode(p) == OpCodes.MoveCreature && |p.data| == 12 ==> d == Decoded(MoveCreature, None)
    ensures OpCode(p) == OpCodes.MoveCreature && |p.data| > 12 ==>
      d == Decoded(MoveCreature, Some(Packet(p.globalOffset, p.localOffset, p.timeOffset, p.data[12..])))
  {
    if OpCode(p) != OpCodes.MoveCreature then WrongOpCode(p, OpCodes.MoveCreature)
    else
      // The opcode, then the mapped thing, then the position.
      match MappedThingAt(p.data, 1)
      case Err(e) => Failed(e)
      case Ok(q) => Slice(p, q + 5, MoveCreature)
  }

  method ParseMoveCreature(p: Packet) returns (d: Decoded)
    ensures d == DecodeMoveCreature(p)
  {
    if OpCode(p) != OpCodes.MoveCreature {
      return WrongOpCode(p, OpCodes.MoveCreature);
    }
    var r := new ByteReader.Reader(p.data);
    var _ := Skip(r, 1);
    var err := MappedThing(r);
    if err.Some? {
      return Failed(err.value);
    }
    var _ := Skip(r, 5); // position
    d := Slice(p, r.pos, MoveCreature);
  }
}

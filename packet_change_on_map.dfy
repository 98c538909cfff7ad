/**
 * The ChangeOnMap packet (parser/packet_change_on_map.go): opcode 107, a
 * mapped thing, then a thing. The event keeps no fields.
 */
module ChangeOnMapPacket {
  import opened Wrappers
  import opened Bytes
  import opened Network
  import opened Events
  import opened Helpers
  import ByteReader
  import OpCodes
  import Items
  import GameData

  /**
   * `parseChangeOnMap`, with the item catalog it consults made a parameter.
   * A plain item (not 0, not a creature) after the mapped thing uses nine
   * bytes, or ten when the item carries its extra byte; a payload that stops
   * short of a skipped byte slices out of range. Id 0 fails the decode.
   */
  function DecodeChangeOnMap(p: Packet, attrs: GameData.Catalog): (d: Decoded)
    ensures OpCode(p) != OpCodes.ChangeOnMap ==> d == WrongOpCode(p, OpCodes.ChangeOnMap)
    ensures OpCode(p) == OpCodes.ChangeOnMap && |p.data| < 9 ==>
      d == Failed(Io(if |p.data| == 1 || 3 <= |p.data| <= 7 then EOF else UnexpectedEOF))
    ensures OpCode(p) == OpCodes.ChangeOnMap && |p.data| >= 9 && U16At(p.data, 7) == Items.Invalid ==>
      d == Failed(InvalidItemId)
    ensures OpCode(p) == OpCodes.ChangeOnMap && |p.data| >= 9 && U16At(p.data, 7) == Items.Creature ==>
      d == (if |p.data| < 14 then OutOfRange else Decoded(ChangeOnMap, Next(p, 14)))
    ensures OpCode(p) == OpCodes.ChangeOnMap && |p.data| >= 9 ==>
      var id := U16At(p.data, 7);
      var used := if ItemSkips(attrs, id) then 10 else 9;
      id != Items.Invalid && !Items.IsCreature(id) ==>
        d == (if used > |p.data| then OutOfRange else Decoded(ChangeOnMap, Next(p, used)))
    ensures OpCode(p) == OpCodes.ChangeOnMap && d.Failed? ==> !d.error.UnexpectedOpCode?
    ensures d.Decoded? && d.rest.Some? ==>
      |d.rest.value.data| < |p.data| && d.rest.value.data == p.data[|p.data| - |d.rest.value.data|..]
  {
    if OpCode(p) != OpCodes.ChangeOnMap then WrongOpCode(p, OpCodes.ChangeOnMap)
    else
      match MappedThingAt(p.data, 1)
      case Err(e) => Failed(e)
      case Ok(q) =>
        match ThingAt(p.data, q, attrs)
        case Err(e) => Failed(e)
        case Ok(c) => Resume(p, c, ChangeOnMap)
  }

  method ParseChangeOnMap(p: Packet, attrs: GameData.Catalog) returns (d: Decoded)
    ensures d == DecodeChangeOnMap(p, attrs)
  {
    if OpCode(p) != OpCodes.ChangeOnMap {
      return WrongOpCode(p, OpCodes.ChangeOnMap);
    }
    var r := new ByteReader.Reader(p.data);
    var _ := Skip(r, 1); // opcode
    var err := MappedThing(r);
    if err.Some? {
      return Failed(err.value);
    }
    err := Thing(r, attrs);
    if err.Some? {
      return Failed(err.value);
    }
    d := Resume(p, r.pos, ChangeOnMap);
  }
}

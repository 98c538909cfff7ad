/**
 * The four decoders that skip a fixed number of bytes after the opcode and
 * return `p.Next(cur)`: CreatureHealth (parser/packet_creature_health.go),
 * MarkCreature (parser/packet_mark_creature.go), PlayerData
 * (parser/packet_player_data.go) and LoginOrPendingState
 * (parser/packet_login_or_pending_state.go). None of them reads a byte, so
 * none of them can fail once the opcode matches; a payload shorter than what
 * they skip reaches `Next` past the end.
 */
module FixedPackets {
  import opened Wrappers
  import opened Bytes
  import opened Network
  import opened Events
  import opened Helpers
  import ByteReader
  import OpCodes

  /** The shared shape: check the opcode, skip it and `fields` more bytes, resume there. */
  function DecodeFixed(p: Packet, code: OpCodes.OpCode, fields: nat, ev: Event): (d: Decoded)
    ensures d.Failed? <==> OpCode(p) != code
    ensures d.Failed? ==> d == WrongOpCode(p, code)
    ensures d.OutOfRange? <==> OpCode(p) == code && |p.data| < 1 + fields
    ensures d.Decoded? ==> d.event == ev && (d.rest.None? <==> |p.data| == 1 + fields)
    ensures d.Decoded? && d.rest.Some? ==>
      && d.rest.value.data == p.data[1 + fields..]
      && d.rest.value.localOffset == p.localOffset + 1 + fields
      && d.rest.value.globalOffset == p.globalOffset
      && d.rest.value.timeOffset == p.timeOffset
  {
    if OpCode(p) != code then WrongOpCode(p, code)
    else Resume(p, 1 + fields, ev)
  }

  method ParseFixed(p: Packet, code: OpCodes.OpCode, fields: nat, ev: Event) returns (d: Decoded)
    ensures d == DecodeFixed(p, code, fields, ev)
  {
    if OpCode(p) != code {
      return WrongOpCode(p, code);
    }
    var r := new ByteReader.Reader(p.data);
    var _ := Skip(r, 1); // opcode
    var _ := Skip(r, fields);
    d := Resume(p, r.pos, ev);
  }

  /** Id (4 bytes) and health percent (1 byte). */
  function DecodeCreatureHealth(p: Packet): (d: Decoded)
    ensures d.Failed? <==> OpCode(p) != OpCodes.CreatureHealth
    ensures OpCode(p) == OpCodes.CreatureHealth ==> (d.OutOfRange? <==> |p.data| < 6)
    ensures OpCode(p) == OpCodes.CreatureHealth && |p.data| == 6 ==> d == Decoded(CreatureHealth, None)
    ensures OpCode(p) == OpCodes.CreatureHealth && |p.data| > 6 ==>
      d == Decoded(CreatureHealth, Some(Packet(p.globalOffset, p.localOffset + 6, p.timeOffset, p.data[6..])))
  {
    DecodeFixed(p, OpCodes.CreatureHealth, 5, CreatureHealth)
  }

  /** Id (4 bytes) and colour (1 byte). */
  function DecodeMarkCreature(p: Packet): (d: Decoded)
    ensures d.Failed? <==> OpCode(p) != OpCodes.MarkCreature
    ensures OpCode(p) == OpCodes.MarkCreature ==> (d.OutOfRange? <==> |p.data| < 6)
    ensures OpCode(p) == OpCodes.MarkCreature && |p.data| == 6 ==> d == Decoded(MarkCreature, None)
    ensures OpCode(p) == OpCodes.MarkCreature && |p.data| > 6 ==>
      d == Decoded(MarkCreature, Some(Packet(p.globalOffset, p.localOffset + 6, p.timeOffset, p.data[6..])))
  {
    DecodeFixed(p, OpCodes.MarkCreature, 5, MarkCreature)
  }

  /** Health, capacity, experience, level, mana, magic level and soul: 20 bytes. */
  function DecodePlayerData(p: Packet): (d: Decoded)
    ensures d.Failed? <==> OpCode(p) != OpCodes.PlayerData
    ensures OpCode(p) == OpCodes.PlayerData ==> (d.OutOfRange? <==> |p.data| < 21)
    ensures OpCode(p) == OpCodes.PlayerData && |p.data| == 21 ==> d == Decoded(PlayerData, None)
    ensures OpCode(p) == OpCodes.PlayerData && |p.data| > 21 ==>
      d == Decoded(PlayerData, Some(Packet(p.globalOffset, p.localOffset + 21, p.timeOffset, p.data[21..])))
  {
    DecodeFixed(p, OpCodes.PlayerData, 20, PlayerData)
  }

  /** Player id (4 bytes), server beat (2 bytes), can-report-bugs flag (1 byte). */
  function DecodeLoginOrPendingState(p: Packet): (d: Decoded)
    ensures d.Failed? <==> OpCode(p) != OpCodes.LoginOrPendingState
    ensures OpCode(p) == OpCodes.LoginOrPendingState ==> (d.OutOfRange? <==> |p.data| < 8)
    ensures OpCode(p) == OpCodes.LoginOrPendingState && |p.data| == 8 ==> d == Decoded(LoginOrPendingState, None)
    ensures OpCode(p) == OpCodes.LoginOrPendingState && |p.data| > 8 ==>
      d == Decoded(LoginOrPendingState, Some(Packet(p.globalOffset, p.localOffset + 8, p.timeOffset, p.data[8..])))
  {
    DecodeFixed(p, OpCodes.LoginOrPendingState, 7, LoginOrPendingState)
  }
}

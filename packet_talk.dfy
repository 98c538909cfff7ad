/**
 * The Talk packet (parser/packet_talk.go): opcode 170, a 4-byte channel
 * statement id, the speaker's name (u16 length and bytes), a one-byte message
 * mode, two or five bytes some modes carry, and the message (u16 length and
 * bytes).
 */
module TalkPacket {
  import opened Wrappers
  import opened Bytes
  import opened Network
  import opened Events
  import opened Helpers
  import opened MessageModes
  import ByteReader
  import OpCodes

  /**
   * How many bytes follow the mode before the message: a 5-byte position, a
   * 2-byte channel id, or nothing. None for a mode the decoder rejects.
   */
  function ModeExtra(mode: MessageMode): (r: Option<nat>)
    ensures r.Some? ==> r.value in {0, 2, 5}
  {
    if mode in {Say, Whisper, Yell, MonsterSay, MonsterYell, BarkLow, BarkLoud, NpcFromStartBlock} then Some(5)
    else if mode in {Channel, ChannelManagement, ChannelHighlight, GamemasterChannel} then Some(2)
    else if mode in {PrivateFrom, GamemasterBroadcast, GamemasterPrivateFrom, RVRAnswer, RVRContinue} then Some(0)
    else None
  }

  /** The accepted modes by number; every other mode, 0 and 14 among them, is rejected. */
  lemma ModeClasses(mode: MessageMode)
    ensures ModeExtra(mode) == Some(5) <==> mode in {1, 2, 3, 16, 17, 34, 35, 51}
    ensures ModeExtra(mode) == Some(2) <==> mode in {5, 6, 10, 12}
    ensures ModeExtra(mode) == Some(0) <==> mode in {4, 7, 8, 9, 11}
    ensures ModeExtra(MessageNone).None? && ModeExtra(Mode14).None?
  {
  }

  /** `parseTalk`. */
  function DecodeTalk(p: Packet): (d: Decoded)
    ensures OpCode(p) != OpCodes.Talk ==> d == WrongOpCode(p, OpCodes.Talk)
    ensures !d.OutOfRange?
    ensures d.Decoded? ==> d.event.Talk? && ModeExtra(d.event.mode).Some?
    ensures OpCode(p) == OpCodes.Talk && d.Failed? ==> !d.error.UnexpectedOpCode?
    ensures d.Decoded? && d.rest.Some? ==>
      0 < |d.rest.value.data| < |p.data| && d.rest.value.data == p.data[|p.data| - |d.rest.value.data|..]
  {
    if OpCode(p) != OpCodes.Talk then WrongOpCode(p, OpCodes.Talk)
    else
      // The name follows the opcode and the channel statement id.
      match StrAt(p.data, 5)
      case Err(e) => Failed(e)
      case Ok((name, q)) => TalkFrom(p, name, q)
  }

  /** The rest of `parseTalk` once the name is read and the cursor is at q: the mode, its extra bytes and the message. */
  function TalkFrom(p: Packet, name: seq<byte>, q: nat): (d: Decoded)
    ensures !d.OutOfRange?
    ensures d.Failed? ==> !d.error.UnexpectedOpCode?
  {
    match ReadAt(p.data, q, 1)
    case Err(e) => Failed(Io(e))
    case Ok(m) =>
      match ModeExtra(m[0])
      case None => Failed(UnknownMessageMode(m[0]))
      case Some(extra) =>
        match StrAt(p.data, q + 1 + extra)
        case Err(e) => Failed(e)
        case Ok((msg, end)) => Slice(p, end, Talk(name, m[0], msg))
  }

  method ParseTalk(p: Packet) returns (d: Decoded)
    ensures d == DecodeTalk(p)
  {
    if OpCode(p) != OpCodes.Talk {
      return WrongOpCode(p, OpCodes.Talk);
    }
    var r := new ByteReader.Reader(p.data);
    // Opcode and channel statement id: a forward seek cannot fail.
    var _ := r.Seek(5);
    // The name and the message are each a u16 length and that many bytes, as `str` reads them.
    var name := Str(r);
    if name.Err? {
      return Failed(name.error);
    }
    d := ReadTalkFrom(p, r, name.value);
  }

  method ReadTalkFrom(p: Packet, r: ByteReader.Reader, name: seq<byte>) returns (d: Decoded)
    requires r.data == p.data
    modifies r
    ensures d == TalkFrom(p, name, old(r.pos))
  {
    var mode := r.ReadByte();
    if mode.Err? {
      return Failed(Io(mode.error));
    }
    var extra := ModeExtra(mode.value);
    if extra.None? {
      return Failed(UnknownMessageMode(mode.value));
    }
    if extra.value != 0 {
      var _ := r.Seek(extra.value);
    }
    var msg := Str(r);
    if msg.Err? {
      return Failed(msg.error);
    }
    d := Slice(p, r.pos, Talk(name, mode.value, msg.value));
  }

  /** The bytes of a Talk packet: opcode, id, name, mode, the mode's extra bytes, message. */
  function EncodeTalk(id: seq<byte>, name: seq<byte>, mode: MessageMode, extra: seq<byte>, msg: seq<byte>): seq<byte>
    requires |name| < 0x1_0000 && |msg| < 0x1_0000
  {
    [OpCodes.Talk] + id + LE16(|name|) + name + [mode] + extra + LE16(|msg|) + msg
  }

  /**
   * Round trip: an encoded Talk followed by any tail decodes to the same
   * name, mode and message, and the remainder is the tail (nil when empty).
   */
  lemma TalkRoundTrip(g: nat, l: nat, t: int, id: seq<byte>, name: seq<byte>, mode: MessageMode,
                      extra: seq<byte>, msg: seq<byte>, tail: seq<byte>)
    requires |id| == 4 && |name| < 0x1_0000 && |msg| < 0x1_0000 && ModeExtra(mode) == Some(|extra|)
    ensures DecodeTalk(Packet(g, l, t, EncodeTalk(id, name, mode, extra, msg) + tail))
      == Decoded(Talk(name, mode, msg), if tail == [] then None else Some(Packet(g, l, t, tail)))
  {
    var data := EncodeTalk(id, name, mode, extra, msg) + tail;
    TalkBytes(data, id, name, mode, extra, msg, tail);
    TalkFields(Packet(g, l, t, data), name, mode, |extra|, msg, tail);
  }

  /** Where the fields of an encoded Talk followed by a tail sit. */
  lemma TalkBytes(data: seq<byte>, id: seq<byte>, name: seq<byte>, mode: MessageMode,
                  extra: seq<byte>, msg: seq<byte>, tail: seq<byte>)
    requires |id| == 4 && |name| < 0x1_0000 && |msg| < 0x1_0000
    requires data == EncodeTalk(id, name, mode, extra, msg) + tail
    ensures 7 + |name| < |data| && data[0] == OpCodes.Talk
    ensures StrAt(data, 5) == Ok((name, 7 + |name|)) && data[7 + |name|] == mode
    ensures StrAt(data, 8 + |name| + |extra|) == Ok((msg, 10 + |name| + |extra| + |msg|))
    ensures 10 + |name| + |extra| + |msg| + |tail| == |data| && data[10 + |name| + |extra| + |msg|..] == tail
  {
    var head := [OpCodes.Talk] + id;
    var mid := [mode] + extra + LE16(|msg|) + msg + tail;
    assert data == head + LE16(|name|) + name + mid;
    StrRoundTrip(head, name, mid);
    var q := 7 + |name|;
    assert data[q] == mode;
    var pre := head + LE16(|name|) + name + [mode] + extra;
    assert data == pre + LE16(|msg|) + msg + tail;
    StrRoundTrip(pre, msg, tail);
    assert |pre| == q + 1 + |extra|;
    assert data[|pre| + 2 + |msg|..] == tail;
  }

  /** The decode once the packet's bytes are known field by field: opcode, name, mode, message, and what follows. */
  lemma TalkFields(p: Packet, name: seq<byte>, mode: MessageMode, extra: nat, msg: seq<byte>, tail: seq<byte>)
    requires 7 + |name| < |p.data| && p.data[0] == OpCodes.Talk && ModeExtra(mode) == Some(extra)
    requires StrAt(p.data, 5) == Ok((name, 7 + |name|)) && p.data[7 + |name|] == mode
    requires StrAt(p.data, 8 + |name| + extra) == Ok((msg, 10 + |name| + extra + |msg|))
    requires 10 + |name| + extra + |msg| + |tail| == |p.data| && p.data[10 + |name| + extra + |msg|..] == tail
    ensures DecodeTalk(p) == Decoded(Talk(name, mode, msg), if tail == [] then None else Some(Packet(p.globalOffset, p.localOffset, p.timeOffset, tail)))
  {
    assert p.data[7 + |name|..8 + |name|] == [mode];
  }

  /** A mode outside the three groups fails the decode with that mode, whatever follows it. */
  lemma UnknownModeRejected(g: nat, l: nat, t: int, id: seq<byte>, name: seq<byte>, mode: MessageMode, rest: seq<byte>)
    requires |id| == 4 && |name| < 0x1_0000 && ModeExtra(mode).None?
    ensures DecodeTalk(Packet(g, l, t, [OpCodes.Talk] + id + LE16(|name|) + name + [mode] + rest))
      == Failed(UnknownMessageMode(mode))
  {
    var head := [OpCodes.Talk] + id;
    var data := head + LE16(|name|) + name + ([mode] + rest);
    assert [OpCodes.Talk] + id + LE16(|name|) + name + [mode] + rest == data;
    StrRoundTrip(head, name, [mode] + rest);
    assert data[7 + |name|] == mode;
  }

  /** Any proper prefix of an encoded Talk fails with a short-read error: no field is taken from bytes that are not there. */
  lemma TruncatedTalkFails(g: nat, l: nat, t: int, id: seq<byte>, name: seq<byte>, mode: MessageMode,
                           extra: seq<byte>, msg: seq<byte>, k: nat)
    requires |id| == 4 && |name| < 0x1_0000 && |msg| < 0x1_0000 && ModeExtra(mode) == Some(|extra|)
    requires 1 <= k < |EncodeTalk(id, name, mode, extra, msg)|
    ensures var d := DecodeTalk(Packet(g, l, t, EncodeTalk(id, name, mode, extra, msg)[..k]));
      d.Failed? && d.error in {Io(EOF), Io(UnexpectedEOF)}
  {
    var enc := EncodeTalk(id, name, mode, extra, msg);
    var data := enc[..k];
    var q := 7 + |name|;
    assert enc[0] == OpCodes.Talk;
    if k >= 7 {
      assert data[5..7] == enc[5..7] == LE16(|name|);
    }
    if k < q {
      assert StrAt(data, 5).Err?;
    } else {
      assert data[7..q] == enc[7..q] == name;
      assert StrAt(data, 5) == Ok((name, q));
      TruncatedAfterName(Packet(g, l, t, data), id, name, mode, extra, msg, k);
    }
  }

  /** The part of TruncatedTalkFails after the name: the cut falls in the mode, its extra bytes or the message. */
  lemma TruncatedAfterName(p: Packet, id: seq<byte>, name: seq<byte>, mode: MessageMode,
                           extra: seq<byte>, msg: seq<byte>, k: nat)
    requires |id| == 4 && |name| < 0x1_0000 && |msg| < 0x1_0000 && ModeExtra(mode) == Some(|extra|)
    requires 7 + |name| <= k < |EncodeTalk(id, name, mode, extra, msg)|
    requires p.data == EncodeTalk(id, name, mode, extra, msg)[..k]
    ensures var d := TalkFrom(p, name, 7 + |name|);
      d.Failed? && d.error in {Io(EOF), Io(UnexpectedEOF)}
  {
    var enc := EncodeTalk(id, name, mode, extra, msg);
    var head := [OpCodes.Talk] + id + LE16(|name|) + name;
    var pre := head + [mode] + extra;
    var q, m := |head|, |pre|;
    assert enc == pre + LE16(|msg|) + msg;
    if k > q {
      assert p.data[q] == mode by {
        assert enc == head + [mode] + (extra + LE16(|msg|) + msg);
      }
      if k >= m + 2 {
        assert U16At(p.data, m) == |msg| by {
          assert p.data[m] == LE16(|msg|)[0] && p.data[m + 1] == LE16(|msg|)[1];
        }
      }
      assert StrAt(p.data, m).Err?;
    }
  }
}

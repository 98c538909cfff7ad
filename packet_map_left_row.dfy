/**
 * The MapLeftRow packet (parser/packet_map_left_row.go): opcode 104, then up
 * to 256 things, each announced by a u16 that is not a terminator; a u16 of
 * 0xff00 or more ends the row. The event keeps no fields.
 */
module MapLeftRowPacket {
  import opened Wrappers
  import opened Bytes
  import opened Network
  import opened Events
  import opened Helpers
  import ByteReader
  import OpCodes
  import Items
  import GameData

  /** The most things a row holds. */
  const MaxStack: nat := 256

  /** The smallest u16 that ends a row. */
  const Terminator: u16 := 0xff00

  /**
   * Where the row's loop leaves the cursor, from stack position stackPos with
   * the cursor at pos: peek at a u16; a terminator ends the row just after it,
   * anything else is read again as a thing. After 256 things the loop stops
   * without looking further.
   */
  function RowEnd(data: seq<byte>, pos: nat, stackPos: nat, attrs: GameData.Catalog): (r: Moved)
    ensures r.Err? ==> r.error.Io? || r.error == InvalidItemId
    ensures r.Ok? ==> r.value >= pos && (stackPos < MaxStack ==> r.value >= pos + 2)
    decreases MaxStack - stackPos
  {
    if stackPos >= MaxStack then Ok(pos)
    else
      match U16Read(data, pos)
      case Err(e) => Err(e)
      case Ok(x) =>
        if x >= Terminator then Ok(pos + 2)
        else
          match ThingAt(data, pos, attrs)
          case Err(e) => Err(e)
          case Ok(q) => RowEnd(data, q, stackPos + 1, attrs)
  }

  /** `parseMapLeftRow`, with the item catalog it consults made a parameter. */
  function DecodeMapLeftRow(p: Packet, attrs: GameData.Catalog): (d: Decoded)
    ensures OpCode(p) != OpCodes.MapLeftRow ==> d == WrongOpCode(p, OpCodes.MapLeftRow)
    ensures OpCode(p) == OpCodes.MapLeftRow && d.Failed? ==> d.error.Io? || d.error == InvalidItemId
    ensures OpCode(p) == OpCodes.MapLeftRow && |p.data| == 1 ==> d == Failed(Io(EOF))
    ensures d.Decoded? ==> d.event == MapLeftRow
    ensures d.Decoded? && d.rest.Some? ==>
      && |d.rest.value.data| + 3 <= |p.data|
      && d.rest.value.data == p.data[|p.data| - |d.rest.value.data|..]
      && d.rest.value.localOffset + |d.rest.value.data| == p.localOffset + |p.data|
  {
    if OpCode(p) != OpCodes.MapLeftRow then WrongOpCode(p, OpCodes.MapLeftRow)
    else RowDecoded(p, RowEnd(p.data, 1, 0, attrs))
  }

  /** The decoder's result once the loop has stopped: its error, or the event and the packet from the cursor on. */
  function RowDecoded(p: Packet, end: Moved): (d: Decoded)
    ensures d.Failed? <==> end.Err?
    ensures d.Failed? ==> d.error == end.error
    ensures d.OutOfRange? <==> end.Ok? && end.value > |p.data|
    ensures d.Decoded? ==> d.event == MapLeftRow && (d.rest.None? <==> end.value == |p.data|)
    ensures d.Decoded? && d.rest.Some? ==>
      && d.rest.value.data == p.data[end.value..]
      && d.rest.value.localOffset == p.localOffset + end.value
      && d.rest.value.globalOffset == p.globalOffset
      && d.rest.value.timeOffset == p.timeOffset
  {
    match end
    case Err(e) => Failed(e)
    case Ok(cur) => Resume(p, cur, MapLeftRow)
  }

  method ParseMapLeftRow(p: Packet, attrs: GameData.Catalog) returns (d: Decoded)
    ensures d == DecodeMapLeftRow(p, attrs)
  {
    if OpCode(p) != OpCodes.MapLeftRow {
      return WrongOpCode(p, OpCodes.MapLeftRow);
    }
    var end := ReadRowAfterOpCode(p.data, attrs);
    d := RowDecoded(p, end);
  }

  /** A reader over the packet, past the opcode, through the row loop. */
  method ReadRowAfterOpCode(data: seq<byte>, attrs: GameData.Catalog) returns (end: Moved)
    ensures end == RowEnd(data, 1, 0, attrs)
  {
    var r := new ByteReader.Reader(data);
    var _ := Skip(r, 1); // opcode
    end := ReadRow(r, attrs);
  }

  /** The row loop from the reader's cursor: its error, or where it leaves the cursor. */
  method ReadRow(r: ByteReader.Reader, attrs: GameData.Catalog) returns (end: Moved)
    modifies r
    ensures end == RowEnd(r.data, old(r.pos), 0, attrs)
  {
    ghost var row := RowEnd(r.data, r.pos, 0, attrs);
    var stackPos := 0;
    while stackPos < MaxStack
      invariant stackPos <= MaxStack
      invariant row == RowEnd(r.data, r.pos, stackPos, attrs)
      decreases MaxStack - stackPos
    {
      var stop := ReadRowEntry(r, stackPos, attrs);
      if stop.Some? {
        return stop.value;
      }
      stackPos := stackPos + 1;
    }
    assert row == Ok(r.pos);
    return Ok(r.pos);
  }

  /**
   * One pass of the row loop at stack position stackPos: read a u16; a
   * terminator ends the row with the cursor after it; otherwise step back and
   * read a thing. Some(end) when the row ends here, None to go on.
   */
  method ReadRowEntry(r: ByteReader.Reader, stackPos: nat, attrs: GameData.Catalog) returns (stop: Option<Moved>)
    requires stackPos < MaxStack
    modifies r
    ensures stop.Some? ==> RowEnd(r.data, old(r.pos), stackPos, attrs) == stop.value
    ensures stop.None? ==> RowEnd(r.data, old(r.pos), stackPos, attrs) == RowEnd(r.data, r.pos, stackPos + 1, attrs)
  {
    var x := ReadU16(r);
    if x.Err? {
      return Some(Err(x.error));
    }
    if x.value >= Terminator {
      return Some(Ok(r.pos));
    }
    // Step back over the u16 just read: the cursor is at least 2, so this cannot fail.
    var _ := Skip(r, -2);
    var err := Thing(r, attrs);
    if err.Some? {
      return Some(Err(err.value));
    }
    return None;
  }

  /** An item that is announced by its id alone: no creature, not 0, no extra byte, and not a terminator. */
  predicate PlainItem(attrs: GameData.Catalog, id: u16)
  {
    id != Items.Invalid && !Items.IsCreature(id) && id < Terminator && !ItemSkips(attrs, id)
  }

  function EncodeIds(ids: seq<u16>): (s: seq<byte>)
    ensures |s| == 2 * |ids|
  {
    if ids == [] then [] else LE16(ids[0]) + EncodeIds(ids[1..])
  }

  /** The ids are written one after the other from pos, and each is a plain item. */
  predicate PlainRun(data: seq<byte>, pos: nat, ids: seq<u16>, attrs: GameData.Catalog)
  {
    pos + 2 * |ids| <= |data|
    && forall i {:trigger ids[i]} :: 0 <= i < |ids| ==> U16At(data, pos + 2 * i) == ids[i] && PlainItem(attrs, ids[i])
  }

  /**
   * Plain items are stepped over two bytes at a time, one stack position
   * each: from the j-th id, with the cursor at on it and the stack at
   * position k = base + j, to the end of the run.
   */
  lemma {:induction false} PlainItemsSkipped(data: seq<byte>, pos: nat, ids: seq<u16>, j: nat, base: nat,
                                             at: nat, k: nat, last: nat, top: nat, attrs: GameData.Catalog)
    requires PlainRun(data, pos, ids, attrs) && j <= |ids| && base + |ids| <= MaxStack
    requires at == pos + 2 * j && k == base + j && last == pos + 2 * |ids| && top == base + |ids|
    ensures RowEnd(data, at, k, attrs) == RowEnd(data, last, top, attrs)
    decreases |ids| - j
  {
    if j < |ids| {
      PlainRunStep(data, pos, ids, j, base, at, k, attrs);
      PlainItemsSkipped(data, pos, ids, j + 1, base, at + 2, k + 1, last, top, attrs);
    } else {
      assert at == last && k == top;
    }
  }

  /** The j-th id of a plain run is one plain item. */
  lemma PlainRunStep(data: seq<byte>, pos: nat, ids: seq<u16>, j: nat, base: nat, at: nat, k: nat, attrs: GameData.Catalog)
    requires PlainRun(data, pos, ids, attrs) && j < |ids| && base + |ids| <= MaxStack
    requires at == pos + 2 * j && k == base + j
    ensures RowEnd(data, at, k, attrs) == RowEnd(data, at + 2, k + 1, attrs)
  {
    assert U16At(data, at) == ids[j] && PlainItem(attrs, ids[j]);
    PlainItemStep(data, at, k, attrs);
  }

  /** One plain item: the row moves on two bytes and one stack position. */
  lemma PlainItemStep(data: seq<byte>, pos: nat, k: nat, attrs: GameData.Catalog)
    requires pos + 2 <= |data| && PlainItem(attrs, U16At(data, pos)) && k < MaxStack
    ensures RowEnd(data, pos, k, attrs) == RowEnd(data, pos + 2, k + 1, attrs)
  {
    assert ThingAt(data, pos, attrs) == Ok(pos + 2);
  }

  /** Where EncodeIds puts each id. */
  lemma EncodedIdsAt(pre: seq<byte>, ids: seq<u16>, rest: seq<byte>)
    ensures forall i :: 0 <= i < |ids| ==> U16At(pre + EncodeIds(ids) + rest, |pre| + 2 * i) == ids[i]
  {
    var data, e := pre + EncodeIds(ids) + rest, EncodeIds(ids);
    forall i | 0 <= i < |ids| ensures U16At(data, |pre| + 2 * i) == ids[i] {
      EncodedIdAt(ids, i);
      assert data[|pre| + 2 * i] == e[2 * i] && data[|pre| + 2 * i + 1] == e[2 * i + 1];
      assert U16At(LE16(ids[i]), 0) == ids[i];
    }
  }

  /** The i-th id's two bytes sit at 2 * i in the encoding. */
  lemma {:induction false} EncodedIdAt(ids: seq<u16>, i: nat)
    requires i < |ids|
    ensures EncodeIds(ids)[2 * i] == LE16(ids[i])[0] && EncodeIds(ids)[2 * i + 1] == LE16(ids[i])[1]
    decreases i
  {
    assert EncodeIds(ids) == LE16(ids[0]) + EncodeIds(ids[1..]);
    if i > 0 {
      EncodedIdAt(ids[1..], i - 1);
      assert ids[1..][i - 1] == ids[i];
    }
  }

  /** Plain ids encoded after a prefix form a plain run there. */
  lemma EncodedPlainRun(pre: seq<byte>, ids: seq<u16>, rest: seq<byte>, attrs: GameData.Catalog)
    requires forall i :: 0 <= i < |ids| ==> PlainItem(attrs, ids[i])
    ensures PlainRun(pre + EncodeIds(ids) + rest, |pre|, ids, attrs)
  {
    EncodedIdsAt(pre, ids, rest);
  }

  /** A run of plain items closed by a terminator: the loop stops two bytes after the terminator. */
  lemma RunThenTerminator(data: seq<byte>, ids: seq<u16>, attrs: GameData.Catalog)
    requires PlainRun(data, 1, ids, attrs) && |ids| < MaxStack
    requires 1 + 2 * |ids| + 2 <= |data| && U16At(data, 1 + 2 * |ids|) >= Terminator
    ensures RowEnd(data, 1, 0, attrs) == Ok(1 + 2 * |ids| + 2)
  {
    PlainItemsSkipped(data, 1, ids, 0, 0, 1, 0, 1 + 2 * |ids|, |ids|, attrs);
  }

  /** A run of plain items followed by id 0: the thing read there is rejected. */
  lemma RunThenInvalid(data: seq<byte>, ids: seq<u16>, attrs: GameData.Catalog)
    requires PlainRun(data, 1, ids, attrs) && |ids| < MaxStack
    requires 1 + 2 * |ids| + 2 <= |data| && U16At(data, 1 + 2 * |ids|) == Items.Invalid
    ensures RowEnd(data, 1, 0, attrs) == Err(InvalidItemId)
  {
    PlainItemsSkipped(data, 1, ids, 0, 0, 1, 0, 1 + 2 * |ids|, |ids|, attrs);
  }

  /** A run of 256 plain items: the loop stops right after the last one. */
  lemma FullRun(data: seq<byte>, ids: seq<u16>, attrs: GameData.Catalog)
    requires PlainRun(data, 1, ids, attrs) && |ids| == MaxStack
    ensures RowEnd(data, 1, 0, attrs) == Ok(1 + 2 * MaxStack)
  {
    PlainItemsSkipped(data, 1, ids, 0, 0, 1, 0, 1 + 2 * |ids|, |ids|, attrs);
  }

  /** Where the pieces of an encoded row sit; the ids form a plain run after the opcode. */
  lemma RowLayout(ids: seq<u16>, mid: seq<byte>, tail: seq<byte>, attrs: GameData.Catalog)
    requires forall i :: 0 <= i < |ids| ==> PlainItem(attrs, ids[i])
    ensures var data := [OpCodes.MapLeftRow] + EncodeIds(ids) + mid + tail;
      var at := 1 + 2 * |ids|;
      |data| == at + |mid| + |tail| && data[0] == OpCodes.MapLeftRow
      && data[at..at + |mid|] == mid && data[at + |mid|..] == tail
      && PlainRun(data, 1, ids, attrs)
  {
    var data := [OpCodes.MapLeftRow] + EncodeIds(ids) + mid + tail;
    assert data == [OpCodes.MapLeftRow] + EncodeIds(ids) + (mid + tail);
    EncodedPlainRun([OpCodes.MapLeftRow], ids, mid + tail, attrs);
  }

  /**
   * A row of fewer than 256 plain items closed by a terminator: the loop
   * stops right after the terminator, so the decoder's remainder is the tail.
   */
  lemma TerminatedRow(p: Packet, ids: seq<u16>, term: u16, tail: seq<byte>, attrs: GameData.Catalog)
    requires |ids| < MaxStack && term >= Terminator
    requires forall i :: 0 <= i < |ids| ==> PlainItem(attrs, ids[i])
    requires p.data == [OpCodes.MapLeftRow] + EncodeIds(ids) + LE16(term) + tail
    ensures DecodeMapLeftRow(p, attrs) == Decoded(MapLeftRow, if tail == [] then None
      else Some(Packet(p.globalOffset, p.localOffset + |p.data| - |tail|, p.timeOffset, tail)))
  {
    TerminatedRowScan(p.data, ids, term, tail, attrs);
    DecodedAfterScan(p, tail, attrs);
  }

  /** The scan over such a row: it stops right after the terminator, where the tail starts. */
  lemma TerminatedRowScan(data: seq<byte>, ids: seq<u16>, term: u16, tail: seq<byte>, attrs: GameData.Catalog)
    requires |ids| < MaxStack && term >= Terminator
    requires forall i :: 0 <= i < |ids| ==> PlainItem(attrs, ids[i])
    requires data == [OpCodes.MapLeftRow] + EncodeIds(ids) + LE16(term) + tail
    ensures var end := |data| - |tail|;
      && data[0] == OpCodes.MapLeftRow
      && RowEnd(data, 1, 0, attrs) == Ok(end) && end <= |data| && data[end..] == tail
  {
    var at := 1 + 2 * |ids|;
    RowLayout(ids, LE16(term), tail, attrs);
    assert U16At(data, at) == U16At(data[at..at + 2], 0);
    RunThenTerminator(data, ids, attrs);
  }

  /** After 256 things the row ends without looking for a terminator; the decoder's remainder starts after the last thing. */
  lemma FullRow(p: Packet, ids: seq<u16>, tail: seq<byte>, attrs: GameData.Catalog)
    requires |ids| == MaxStack
    requires forall i :: 0 <= i < |ids| ==> PlainItem(attrs, ids[i])
    requires p.data == [OpCodes.MapLeftRow] + EncodeIds(ids) + tail
    ensures RowEnd(p.data, 1, 0, attrs) == Ok(1 + 2 * MaxStack)
    ensures DecodeMapLeftRow(p, attrs) == Decoded(MapLeftRow, if tail == [] then None
      else Some(Packet(p.globalOffset, p.localOffset + |p.data| - |tail|, p.timeOffset, tail)))
  {
    var data := p.data;
    RowLayout(ids, [], tail, attrs);
    assert [OpCodes.MapLeftRow] + EncodeIds(ids) + [] + tail == data;
    FullRun(data, ids, attrs);
    DecodedAfterScan(p, tail, attrs);
  }

  /** When the scan of a MapLeftRow packet stops at end, in the data or just after it, the decoder hands on the bytes from end. */
  lemma DecodedAfterScan(p: Packet, tail: seq<byte>, attrs: GameData.Catalog)
    requires OpCode(p) == OpCodes.MapLeftRow && |tail| <= |p.data|
    requires RowEnd(p.data, 1, 0, attrs) == Ok(|p.data| - |tail|) && p.data[|p.data| - |tail|..] == tail
    ensures DecodeMapLeftRow(p, attrs) == Decoded(MapLeftRow, if tail == [] then None
      else Some(Packet(p.globalOffset, p.localOffset + |p.data| - |tail|, p.timeOffset, tail)))
  {
    assert DecodeMapLeftRow(p, attrs) == RowDecoded(p, Ok(|p.data| - |tail|));
    ScanEndDecoded(p, tail);
  }

  lemma ScanEndDecoded(p: Packet, tail: seq<byte>)
    requires |tail| <= |p.data| && p.data[|p.data| - |tail|..] == tail
    ensures RowDecoded(p, Ok(|p.data| - |tail|)) == Decoded(MapLeftRow, if tail == [] then None
      else Some(Packet(p.globalOffset, p.localOffset + |p.data| - |tail|, p.timeOffset, tail)))
  {
  }

  /** Id 0 after a run of plain items fails the whole row with the invalid-id error. */
  lemma InvalidIdInRow(ids: seq<u16>, tail: seq<byte>, attrs: GameData.Catalog)
    requires |ids| < MaxStack
    requires forall i :: 0 <= i < |ids| ==> PlainItem(attrs, ids[i])
    ensures RowEnd([OpCodes.MapLeftRow] + EncodeIds(ids) + LE16(Items.Invalid) + tail, 1, 0, attrs) == Err(InvalidItemId)
  {
    var data := [OpCodes.MapLeftRow] + EncodeIds(ids) + LE16(Items.Invalid) + tail;
    var at := 1 + 2 * |ids|;
    RowLayout(ids, LE16(Items.Invalid), tail, attrs);
    assert U16At(data, at) == U16At(data[at..at + 2], 0);
    RunThenInvalid(data, ids, attrs);
  }
}

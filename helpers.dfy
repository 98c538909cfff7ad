/**
 * The field readers the packet decoders share (parser/helpers.go). Each one
 * moves a bytes.Reader over a packet's bytes. A read (`binary.Read`,
 * `io.ReadFull`) fails when bytes are short; a skip is a relative Seek, which
 * succeeds past the end, so a skip never notices truncation.
 *
 * Each helper is a method on the reader, proved against a function of the
 * bytes and the starting position that gives the position it leaves the
 * cursor at, or the error it returns.
 */
module Helpers {
  import opened Wrappers
  import opened Bytes
  import opened ByteReader
  import Items
  import DatEnums
  import GameData
  import OpCodes
  import MessageModes

  /** What a decoder can return as `error`. */
  datatype ParseError =
    | Io(io: IoError)
    | InvalidItemId
    | UnexpectedOpCode(expected: OpCodes.OpCode, got: OpCodes.OpCode)
    | UnknownMessageMode(mode: MessageModes.MessageMode)

  /** The position a helper leaves the cursor at, or its error. */
  type Moved = Result<nat, ParseError>

  /** A helper's outcome agrees with its specification: no error and the cursor where predicted, or the predicted error. */
  predicate Follows(err: Option<ParseError>, pos: nat, spec: Moved)
  {
    match spec
    case Ok(p) => err.None? && pos == p
    case Err(e) => err == Some(e)
  }

  /** A little-endian u16 read at pos, with the read error wrapped. */
  function U16Read(data: seq<byte>, pos: nat): (r: Result<u16, ParseError>)
    ensures r.Ok? <==> pos + 2 <= |data|
    ensures r.Ok? ==> r.value == U16At(data, pos)
    ensures r.Err? ==> r.error == Io(if pos >= |data| then EOF else UnexpectedEOF)
  {
    match ReadAt(data, pos, 2)
    case Err(e) => Err(Io(e))
    case Ok(b) => Ok(U16At(b, 0))
  }

  /** `str`: a u16 length, then that many bytes. */
  function StrAt(data: seq<byte>, pos: nat): (r: Result<(seq<byte>, nat), ParseError>)
    ensures r.Ok? <==> pos + 2 <= |data| && pos + 2 + U16At(data, pos) <= |data|
    ensures r.Ok? ==> |r.value.0| == U16At(data, pos) && r.value.1 == pos + 2 + |r.value.0|
    ensures r.Ok? ==> r.value.0 == data[pos + 2..r.value.1]
    ensures r.Err? ==> r.error.Io?
  {
    match U16Read(data, pos)
    case Err(e) => Err(e)
    case Ok(n) =>
      match ReadAt(data, pos + 2, n)
      case Err(e) => Err(Io(e))
      case Ok(s) => Ok((s, pos + 2 + n))
  }

  /** `mappedThing`: a u16 and then four more bytes, whichever the u16 is. */
  function MappedThingAt(data: seq<byte>, pos: nat): (r: Moved)
    ensures r.Ok? <==> pos + 2 <= |data|
    ensures r.Ok? ==> r.value == pos + 6
    ensures r.Err? ==> r.error == Io(if pos >= |data| then EOF else UnexpectedEOF)
  {
    match U16Read(data, pos)
    case Err(e) => Err(e)
    case Ok(x) =>
      if x == 0xFFFF then Ok(pos + 2 + 4) // creature id
      else Ok(pos + 2 + 4) // y, z, stack position
  }

  /** The bytes an outfit occupies given its look type: LookTypeEx, or head, body, legs and feet. */
  function OutfitSize(look: u16): nat
  {
    if look == 0 then 4 else 6
  }

  /** `outfit`: a u16 look type, then two or four bytes. */
  function OutfitAt(data: seq<byte>, pos: nat): (r: Moved)
    ensures r.Ok? <==> pos + 2 <= |data|
    ensures r.Ok? ==> r.value == pos + OutfitSize(U16At(data, pos))
    ensures r.Err? ==> r.error.Io?
  {
    match U16Read(data, pos)
    case Err(e) => Err(e)
    case Ok(t) => if t == 0 then Ok(pos + 2 + 2) else Ok(pos + 2 + 4)
  }

  /** The tail the `ItemOutdatedCreature` case reads: id, health and direction, outfit, then six bytes. */
  function OutdatedCreatureAt(data: seq<byte>, pos: nat): (r: Moved)
    ensures r.Ok? <==> pos + 8 <= |data|
    ensures r.Ok? ==> r.value == pos + 12 + OutfitSize(U16At(data, pos + 6))
    ensures r.Err? ==> r.error.Io?
  {
    match OutfitAt(data, pos + 4 + 2)
    case Err(e) => Err(e)
    case Ok(q) => Ok(q + 6)
  }

  /**
   * `creature(r, t)`: what follows a creature sentinel. Invalid first reads a
   * type and then falls through to OutdatedCreature; any other id reads nothing.
   */
  function CreatureAt(data: seq<byte>, pos: nat, t: Items.Item): (r: Moved)
    ensures t == Items.Creature ==> r == Ok(pos + 5)
    ensures t == Items.OutdatedCreature ==> r == OutdatedCreatureAt(data, pos)
    ensures t == Items.Invalid ==> (r.Ok? <==> pos + 10 <= |data|)
    ensures t == Items.Invalid && r.Ok? ==> r.value == pos + 14 + OutfitSize(U16At(data, pos + 8))
    ensures t == Items.UnknownCreature ==> (r.Ok? <==> pos + 10 <= |data| && pos + 14 + U16At(data, pos + 8) <= |data|)
    ensures t == Items.UnknownCreature && r.Ok? ==>
      var n := U16At(data, pos + 8);
      r.value == pos + 18 + n + OutfitSize(U16At(data, pos + 12 + n))
    ensures t != Items.Invalid && !Items.IsCreature(t) ==> r == Ok(pos)
    ensures r.Err? ==> r.error.Io?
  {
    if t == Items.Invalid then
      match U16Read(data, pos)
      case Err(e) => Err(e)
      case Ok(_) => OutdatedCreatureAt(data, pos + 2)
    else if t == Items.OutdatedCreature then
      OutdatedCreatureAt(data, pos)
    else if t == Items.UnknownCreature then
      match StrAt(data, pos + 8)
      case Err(e) => Err(e)
      case Ok((_, q)) =>
        match OutfitAt(data, q + 2)
        case Err(e) => Err(e)
        case Ok(o) => Ok(o + 6)
    else if t == Items.Creature then
      Ok(pos + 5)
    else
      Ok(pos)
  }

  /** `itemSkipOverrides`: ids whose one-byte count or subtype is forced on or off. */
  const SkipOverrides: map<Items.Item, bool> := map[
    1644 := false,
    2887 := true,
    2888 := true,
    3031 := true,
    3277 := true,
    3577 := true,
    3582 := true,
    3606 := true,
    3725 := true
  ]

  /** The attributes the catalog marks present for an item id; an id it lacks has none. */
  function ItemAttributes(attrs: GameData.Catalog, t: Items.Item): set<DatEnums.DatAttribute>
  {
    var key := GameData.DatKey(DatEnums.CategoryItem, t);
    if key in attrs then attrs[key] else {}
  }

  /** Whether an item carries one extra byte (a count, charges, or a fluid type). */
  function ItemSkips(attrs: GameData.Catalog, t: Items.Item): (b: bool)
    ensures t in SkipOverrides ==> b == SkipOverrides[t]
    ensures GameData.DatKey(DatEnums.CategoryItem, t) !in attrs ==> (b <==> t in SkipOverrides && SkipOverrides[t])
  {
    if t in SkipOverrides then SkipOverrides[t]
    else
      var present := ItemAttributes(attrs, t);
      DatEnums.Stackable in present || DatEnums.Chargeable in present
      || DatEnums.FluidContainer in present || DatEnums.Splash in present
  }

  /** `item(r, t)`: Invalid first reads the real id; then one byte is skipped when the item carries it. */
  function ItemAt(data: seq<byte>, pos: nat, t: Items.Item, attrs: GameData.Catalog): (r: Moved)
    ensures t != Items.Invalid ==> r == Ok(pos + if ItemSkips(attrs, t) then 1 else 0)
    ensures t == Items.Invalid ==> (r.Ok? <==> pos + 2 <= |data|)
    ensures t == Items.Invalid && r.Ok? ==> r.value == pos + 2 + if ItemSkips(attrs, U16At(data, pos)) then 1 else 0
    ensures r.Err? ==> r.error.Io?
  {
    if t == Items.Invalid then
      match U16Read(data, pos)
      case Err(e) => Err(e)
      case Ok(id) => Ok(pos + 2 + if ItemSkips(attrs, id) then 1 else 0)
    else
      Ok(pos + if ItemSkips(attrs, t) then 1 else 0)
  }

  /** `thing`: a u16 id; 0 is an error, 97 to 99 are creatures, anything else is an item. */
  function ThingAt(data: seq<byte>, pos: nat, attrs: GameData.Catalog): (r: Moved)
    ensures r == Err(InvalidItemId) <==> pos + 2 <= |data| && U16At(data, pos) == Items.Invalid
    ensures pos + 2 > |data| ==> r == Err(Io(if pos >= |data| then EOF else UnexpectedEOF))
    ensures pos + 2 <= |data| && Items.IsCreature(U16At(data, pos)) ==> r == CreatureAt(data, pos + 2, U16At(data, pos))
    ensures pos + 2 <= |data| && U16At(data, pos) != Items.Invalid && !Items.IsCreature(U16At(data, pos)) ==>
      r == Ok(pos + 2 + if ItemSkips(attrs, U16At(data, pos)) then 1 else 0)
    ensures r.Ok? ==> r.value >= pos + 2
    ensures r.Err? ==> r.error.Io? || r.error == InvalidItemId
  {
    match U16Read(data, pos)
    case Err(e) => Err(e)
    case Ok(id) =>
      if id == Items.Invalid then Err(InvalidItemId)
      else if Items.IsCreature(id) then CreatureAt(data, pos + 2, id)
      else ItemAt(data, pos + 2, id, attrs)
  }

  /** `skip(r, n)`: a relative Seek; only a negative target fails. */
  method Skip(r: Reader, n: int) returns (err: Option<ParseError>)
    modifies r
    ensures old(r.pos) + n >= 0 ==> err.None? && r.pos == old(r.pos) + n
    ensures old(r.pos) + n < 0 ==> err == Some(Io(NegativePosition)) && r.pos == old(r.pos)
  {
    var s := r.Seek(n);
    if s.Err? {
      return Some(Io(s.error));
    }
    return None;
  }

  /** `read(r, &u16)`. */
  method ReadU16(r: Reader) returns (x: Result<u16, ParseError>)
    modifies r
    ensures x == U16Read(r.data, old(r.pos))
    ensures x.Ok? ==> r.pos == old(r.pos) + 2
  {
    var v := r.ReadU16();
    if v.Err? {
      return Err(Io(v.error));
    }
    return Ok(v.value);
  }

  method Str(r: Reader) returns (s: Result<seq<byte>, ParseError>)
    modifies r
    ensures var spec := StrAt(r.data, old(r.pos));
      (s.Ok? <==> spec.Ok?) && (s.Ok? ==> s.value == spec.value.0 && r.pos == spec.value.1)
      && (s.Err? ==> s.error == spec.error)
  {
    var length := ReadU16(r);
    if length.Err? {
      return Err(length.error);
    }
    var content := r.ReadFull(length.value);
    if content.Err? {
      return Err(Io(content.error));
    }
    return Ok(content.value);
  }

  method MappedThing(r: Reader) returns (err: Option<ParseError>)
    modifies r
    ensures Follows(err, r.pos, MappedThingAt(r.data, old(r.pos)))
  {
    var x := ReadU16(r);
    if x.Err? {
      return Some(x.error);
    }
    if x.value == 0xFFFF {
      // Creature id: a forward skip cannot fail.
      var _ := Skip(r, 4);
      return None;
    }
    // Y, Z and stack position.
    var _ := Skip(r, 4);
    return None;
  }

  method Outfit(r: Reader) returns (err: Option<ParseError>)
    modifies r
    ensures Follows(err, r.pos, OutfitAt(r.data, old(r.pos)))
  {
    var t := ReadU16(r);
    if t.Err? {
      return Some(t.error);
    }
    if t.value == 0 {
      // LookTypeEx.
      var _ := Skip(r, 2);
      return None;
    }
    // Head, body, legs and feet.
    var _ := Skip(r, 4);
    return None;
  }

  method Creature(r: Reader, t: Items.Item) returns (err: Option<ParseError>)
    modifies r
    ensures Follows(err, r.pos, CreatureAt(r.data, old(r.pos), t))
  {
    if t == Items.Invalid || t == Items.OutdatedCreature {
      if t == Items.Invalid {
        // The type, then the OutdatedCreature fields.
        var id := ReadU16(r);
        if id.Err? {
          return Some(id.error);
        }
      }
      var _ := Skip(r, 4); // id
      var _ := Skip(r, 2); // health percent, direction
      err := Outfit(r);
      if err.Some? {
        return;
      }
      var _ := Skip(r, 6); // light, speed, skull, shield
    } else if t == Items.UnknownCreature {
      var _ := Skip(r, 8); // remove id, id
      var name := Str(r);
      if name.Err? {
        return Some(name.error);
      }
      var _ := Skip(r, 2); // health percent, direction
      err := Outfit(r);
      if err.Some? {
        return;
      }
      var _ := Skip(r, 6); // light, speed, skull, shield
    } else if t == Items.Creature {
      var _ := Skip(r, 5); // id, direction
    }
    return None;
  }

  method Item(r: Reader, t: Items.Item, attrs: GameData.Catalog) returns (err: Option<ParseError>)
    modifies r
    ensures Follows(err, r.pos, ItemAt(r.data, old(r.pos), t, attrs))
  {
    var id := t;
    if id == Items.Invalid {
      var read := ReadU16(r);
      if read.Err? {
        return Some(read.error);
      }
      id := read.value;
    }
    var present := ItemAttributes(attrs, id);
    if id in SkipOverrides {
      if SkipOverrides[id] {
        var _ := Skip(r, 1);
      }
      return None;
    }
    if DatEnums.Stackable in present || DatEnums.Chargeable in present
      || DatEnums.FluidContainer in present || DatEnums.Splash in present
    {
      var _ := Skip(r, 1);
    }
    return None;
  }

  method Thing(r: Reader, attrs: GameData.Catalog) returns (err: Option<ParseError>)
    modifies r
    ensures Follows(err, r.pos, ThingAt(r.data, old(r.pos), attrs))
  {
    var id := ReadU16(r);
    if id.Err? {
      return Some(id.error);
    }
    if id.value == Items.Invalid {
      return Some(InvalidItemId);
    } else if Items.IsCreature(id.value) {
      err := Creature(r, id.value);
    } else {
      err := Item(r, id.value, attrs);
    }
  }

  /** A string written as its u16 length and its bytes reads back whole, and the cursor lands on what follows. */
  lemma StrRoundTrip(pre: seq<byte>, s: seq<byte>, tail: seq<byte>)
    requires |s| < 0x1_0000
    ensures StrAt(pre + LE16(|s|) + s + tail, |pre|) == Ok((s, |pre| + 2 + |s|))
  {
    var data := pre + LE16(|s|) + s + tail;
    assert data[|pre|..|pre| + 2] == LE16(|s|);
    assert data[|pre| + 2..|pre| + 2 + |s|] == s;
  }
}

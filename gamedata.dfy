/**
 * The item catalog (gamedata/dat.go): a binary file of a 4-byte signature,
 * four u16 LE entry counts (items, creatures, effects, missiles), and then
 * one entry per id, category by category. An entry is an attribute list
 * closed by 255, each attribute followed by its own payload, then the sprite
 * dimensions and the sprite ids. Only which attributes are present is kept.
 */
module GameData {
  import opened Wrappers
  import opened Bytes
  import opened DatEnums
  import ByteReader

  datatype DatKey = DatKey(category: DatCategory, id: int)

  /** For each key, the attributes the entry marks present (`DATAttributes.Present`). */
  type Catalog = map<DatKey, set<DatAttribute>>

  const CategoryCount: nat := CategoryLast as nat

  /** Items are numbered from 100, the other categories from 1. */
  function FirstId(cat: nat): nat
  {
    if cat == CategoryItem as nat then 100 else 1
  }

  /**
   * The keys the nested loops visit from category cat, id id on, in order;
   * counts holds each category's stored count, the file's count plus one.
   */
  function Keys(counts: seq<nat>, cat: nat, id: nat): seq<DatKey>
    requires |counts| == CategoryCount
    decreases CategoryCount - cat, if cat < CategoryCount && id < counts[cat] then counts[cat] - id else 0
  {
    if cat >= CategoryCount then []
    else if id < counts[cat] then [DatKey(cat, id)] + Keys(counts, cat, id + 1)
    else Keys(counts, cat + 1, FirstId(cat + 1))
  }

  /** The bytes an attribute's payload occupies, apart from Market's, whose length varies. */
  function FixedSkip(a: DatAttribute): nat
  {
    if a == Displacement || a == Light then 4
    else if a == Elevation || a == LensHelp then 2
    else if a == Bones then 16
    else 0
  }

  /** A run of k one-byte reads: each finds its byte or fails with io.EOF, never with a short read. */
  function ByteRun(file: seq<byte>, pos: nat, k: nat): (r: Result<seq<byte>, IoError>)
    ensures r.Ok? <==> pos + k <= |file|
    ensures r.Ok? ==> r.value == file[pos..pos + k]
    ensures r.Err? ==> r.error == EOF
  {
    if pos + k <= |file| then Ok(file[pos..pos + k]) else Err(EOF)
  }

  /** Where the cursor stands after attribute a's payload, which starts at pos. */
  function AfterAttribute(file: seq<byte>, pos: nat, a: DatAttribute): (r: Result<nat, IoError>)
    ensures r.Ok? ==> r.value >= pos
    ensures a != Market ==> r == Ok(pos + FixedSkip(a))
    ensures a == Market ==> r.Ok? == (pos + 8 <= |file|)
  {
    if a == Market then
      match ReadAt(file, pos + 6, 2)
      case Err(e) => Err(e)
      case Ok(nameLength) => Ok(pos + 6 + 2 + U16At(nameLength, 0) + 4)
    else Ok(pos + FixedSkip(a))
  }

  function Remaining(file: seq<byte>, pos: nat): nat
  {
    if pos <= |file| then |file| - pos else 0
  }

  /**
   * The attribute list from pos on, given the attributes already present:
   * 255 closes it, and 254 closes it right after being recorded.
   */
  function AttributesFrom(file: seq<byte>, pos: nat, present: set<DatAttribute>): (r: Result<(set<DatAttribute>, nat), IoError>)
    ensures r.Ok? ==> r.value.1 > pos
    decreases Remaining(file, pos)
  {
    if pos >= |file| then Err(EOF)
    else
      var a := file[pos];
      if a == AttributeLast then Ok((present, pos + 1))
      else
        match AfterAttribute(file, pos + 1, a)
        case Err(e) => Err(e)
        case Ok(next) =>
          if a == Chargeable then Ok((present + {a}, next))
          else AttributesFrom(file, next, present + {a})
  }

  /** The uint8 product of the sprite dimensions: every multiplication wraps. */
  function SpriteCount(dims: seq<byte>): (n: byte)
  {
    if dims == [] then 1 else (dims[0] * SpriteCount(dims[1..])) % 0x100
  }

  /** Width and height at p, and where the five further dimension bytes start. */
  function SizeAt(file: seq<byte>, p: nat): (r: Result<(seq<byte>, nat), IoError>)
    ensures r.Ok? ==> |r.value.0| == 2 && r.value.1 >= p + 2
    ensures r.Err? ==> r.error == EOF
  {
    match ByteRun(file, p, 2)
    case Err(e) => Err(e)
    case Ok(size) => Ok((size, p + 2 + (if size[0] > 1 || size[1] > 1 then 1 else 0)))
  }

  /**
   * What follows the attribute list at p: width and height, a "real size"
   * byte when either exceeds 1, five more dimension bytes, then two bytes per
   * sprite. The result is where the next entry starts.
   */
  function SpritesAt(file: seq<byte>, p: nat): (r: Result<nat, IoError>)
    ensures r.Ok? ==> r.value >= p + 7
    ensures r.Err? ==> r.error == EOF
  {
    match SizeAt(file, p)
    case Err(e) => Err(e)
    case Ok((size, q)) =>
      match ByteRun(file, q, 5)
      case Err(e) => Err(e)
      case Ok(more) => Ok(q + 5 + 2 * (SpriteCount(size + more) as int))
  }

  /** One entry at pos: its present attributes and where the next entry starts. */
  function EntryAt(file: seq<byte>, pos: nat): (r: Result<(set<DatAttribute>, nat), IoError>)
    ensures r.Ok? ==> r.value.1 > pos
  {
    match AttributesFrom(file, pos, {})
    case Err(e) => Err(e)
    case Ok((present, p)) =>
      match SpritesAt(file, p)
      case Err(e) => Err(e)
      case Ok(next) => Ok((present, next))
  }

  /** What the inner function has built when it returns: the entries and the error it returns, if any. */
  datatype Scan = Scan(entries: Catalog, stop: Option<IoError>)

  function EntriesFrom(file: seq<byte>, pos: nat, keys: seq<DatKey>, acc: Catalog): Scan
    decreases |keys|
  {
    if keys == [] then Scan(acc, None)
    else
      match EntryAt(file, pos)
      case Err(e) => Scan(acc, Some(e))
      case Ok((present, next)) => EntriesFrom(file, next, keys[1..], acc[keys[0] := present])
  }

  /** The k counts from pos on, each stored plus one, after those already read. */
  function CountsFrom(file: seq<byte>, pos: nat, k: nat, counts: seq<nat>): (r: Result<seq<nat>, IoError>)
    ensures r.Ok? ==> |r.value| == |counts| + k && r.value[..|counts|] == counts
    decreases k
  {
    if k == 0 then Ok(counts)
    else
      match ReadAt(file, pos, 2)
      case Err(e) => Err(e)
      case Ok(c) => CountsFrom(file, pos + 2, k - 1, counts + [U16At(c, 0) + 1])
  }

  const SignatureSize: nat := 4
  const BodyStart: nat := SignatureSize + 2 * CategoryCount

  /** The inner function of ReadFile: counts, then every entry. */
  function Body(file: seq<byte>): Scan
  {
    match CountsFrom(file, SignatureSize, CategoryCount, [])
    case Err(e) => Scan(map[], Some(e))
    case Ok(counts) => EntriesFrom(file, BodyStart, Keys(counts, 0, FirstId(0)), map[])
  }

  /**
   * ReadFile's outcome: the new catalog, or the error it returns. A failed
   * signature read is returned even when it is io.EOF; inside the body io.EOF
   * is a successful end with the entries complete so far.
   */
  function ParseDat(file: seq<byte>): Result<Catalog, IoError>
  {
    match ReadAt(file, 0, SignatureSize)
    case Err(e) => Err(e)
    case Ok(_) =>
      var scan := Body(file);
      if scan.stop.Some? && scan.stop.value != EOF then Err(scan.stop.value)
      else Ok(scan.entries)
  }

  /** The package-level `Attrs` variable and the function that replaces it. */
  class GameData {
    var attrs: Catalog

    constructor ()
      ensures attrs == map[]
    {
      attrs := map[];
    }

    /** ReadFile over the file's bytes: on success the catalog is replaced, on error it is kept. */
    method ReadFile(file: seq<byte>) returns (err: Option<IoError>)
      modifies this
      ensures ParseDat(file).Ok? ==> err.None? && attrs == ParseDat(file).value
      ensures ParseDat(file).Err? ==> err == Some(ParseDat(file).error) && attrs == old(attrs)
    {
      var f := new ByteReader.Reader(file);
      var sig := f.ReadFull(SignatureSize);
      if sig.Err? {
        return Some(sig.error);
      }
      var scan := ReadBody(f);
      if scan.stop.Some? && scan.stop.value != EOF {
        return Some(scan.stop.value);
      }
      attrs := scan.entries;
      return None;
    }
  }

  /** The first loop of the inner function: one u16 count per category. */
  method ReadCounts(f: ByteReader.Reader) returns (r: Result<seq<nat>, IoError>)
    requires f.pos == SignatureSize
    modifies f
    ensures r == CountsFrom(f.data, SignatureSize, CategoryCount, [])
    ensures r.Ok? ==> f.pos == BodyStart
  {
    var counts: seq<nat> := [];
    var cat: nat := 0;
    while cat < CategoryCount
      invariant cat <= CategoryCount && f.pos == SignatureSize + 2 * cat
      invariant CountsFrom(f.data, SignatureSize, CategoryCount, [])
        == CountsFrom(f.data, f.pos, CategoryCount - cat, counts)
    {
      var c := f.ReadU16();
      if c.Err? {
        return Err(c.error);
      }
      counts := counts + [c.value as int + 1];
      cat := cat + 1;
    }
    return Ok(counts);
  }

  /** The inner function: the counts, then the nested loops over categories and ids. */
  method ReadBody(f: ByteReader.Reader) returns (scan: Scan)
    requires f.pos == SignatureSize
    modifies f
    ensures scan == Body(f.data)
  {
    var counted := ReadCounts(f);
    if counted.Err? {
      return Scan(map[], Some(counted.error));
    }
    var counts := counted.value;
    var ret: Catalog := map[];
    var cat: nat := 0;
    while cat < CategoryCount
      invariant cat <= CategoryCount
      invariant Body(f.data) == EntriesFrom(f.data, f.pos, Keys(counts, cat, FirstId(cat)), ret)
    {
      var id := FirstId(cat);
      while id < counts[cat]
        invariant Body(f.data) == EntriesFrom(f.data, f.pos, Keys(counts, cat, id), ret)
        decreases counts[cat] as int - id
      {
        assert Keys(counts, cat, id) == [DatKey(cat, id)] + Keys(counts, cat, id + 1);
        var entry := ReadEntry(f);
        if entry.Err? {
          return Scan(ret, Some(entry.error));
        }
        ret := ret[DatKey(cat, id) := entry.value];
        id := id + 1;
      }
      assert Keys(counts, cat, id) == Keys(counts, cat + 1, FirstId(cat + 1));
      cat := cat + 1;
    }
    assert Keys(counts, cat, FirstId(cat)) == [];
    return Scan(ret, None);
  }

  /** One entry: the attribute loop, then the sprite dimensions and the sprite skip. */
  method ReadEntry(f: ByteReader.Reader) returns (r: Result<set<DatAttribute>, IoError>)
    modifies f
    ensures EntryAt(f.data, old(f.pos)).Err? ==> r == Err(EntryAt(f.data, old(f.pos)).error)
    ensures EntryAt(f.data, old(f.pos)).Ok? ==>
      r == Ok(EntryAt(f.data, old(f.pos)).value.0) && f.pos == EntryAt(f.data, old(f.pos)).value.1
  {
    var attrs := ReadAttributes(f);
    if attrs.Err? {
      return Err(attrs.error);
    }
    var sprites := ReadSprites(f);
    if sprites.Err? {
      return Err(sprites.error);
    }
    return Ok(attrs.value);
  }

  /** The dimension reads and the sprite skip that close an entry. */
  method ReadSprites(f: ByteReader.Reader) returns (r: Result<(), IoError>)
    modifies f
    ensures SpritesAt(f.data, old(f.pos)).Err? ==> r == Err(SpritesAt(f.data, old(f.pos)).error)
    ensures SpritesAt(f.data, old(f.pos)).Ok? ==> r == Ok(()) && f.pos == SpritesAt(f.data, old(f.pos)).value
  {
    var size := ReadSize(f);
    if size.Err? {
      return Err(size.error);
    }
    var more := ReadDimensions(f);
    if more.Err? {
      return Err(more.error);
    }
    var numSprites := SpriteCount(size.value + more.value);
    var _ := f.Seek(2 * numSprites as int);
    return Ok(());
  }

  /** Width, height and the optional "real size" byte. */
  method ReadSize(f: ByteReader.Reader) returns (r: Result<seq<byte>, IoError>)
    modifies f
    ensures SizeAt(f.data, old(f.pos)).Err? ==> r == Err(SizeAt(f.data, old(f.pos)).error)
    ensures SizeAt(f.data, old(f.pos)).Ok? ==>
      r == Ok(SizeAt(f.data, old(f.pos)).value.0) && f.pos == SizeAt(f.data, old(f.pos)).value.1
  {
    var p := f.pos;
    var w := f.ReadByte();
    if w.Err? {
      return Err(w.error);
    }
    var h := f.ReadByte();
    if h.Err? {
      return Err(h.error);
    }
    if w.value > 1 || h.value > 1 {
      var _ := f.Seek(1);
    }
    assert f.data[p..p + 2] == [w.value, h.value];
    return Ok([w.value, h.value]);
  }

  /** Layers, the three pattern counts and the animation phases. */
  method ReadDimensions(f: ByteReader.Reader) returns (r: Result<seq<byte>, IoError>)
    modifies f
    ensures r == ByteRun(f.data, old(f.pos), 5)
    ensures r.Ok? ==> f.pos == old(f.pos) + 5
  {
    var q := f.pos;
    var layers := f.ReadByte();
    if layers.Err? {
      return Err(layers.error);
    }
    var patternX := f.ReadByte();
    if patternX.Err? {
      return Err(patternX.error);
    }
    var patternY := f.ReadByte();
    if patternY.Err? {
      return Err(patternY.error);
    }
    var patternZ := f.ReadByte();
    if patternZ.Err? {
      return Err(patternZ.error);
    }
    var phases := f.ReadByte();
    if phases.Err? {
      return Err(phases.error);
    }
    var dims := [layers.value, patternX.value, patternY.value, patternZ.value, phases.value];
    assert f.data[q..q + 5] == dims;
    return Ok(dims);
  }

  /** Skips the payload of attribute a: Market's name length sits after six bytes and is followed by four more. */
  method SkipAttribute(f: ByteReader.Reader, a: DatAttribute) returns (r: Result<(), IoError>)
    modifies f
    ensures var after := AfterAttribute(f.data, old(f.pos), a);
      && (r.Ok? <==> after.Ok?)
      && (after.Ok? ==> f.pos == after.value)
      && (after.Err? ==> r.error == after.error)
  {
    if a == Market {
      var _ := f.Seek(6);
      var nameLength := f.ReadU16();
      if nameLength.Err? {
        return Err(nameLength.error);
      }
      var _ := f.Seek(nameLength.value);
      var _ := f.Seek(4);
    } else {
      var _ := f.Seek(FixedSkip(a));
    }
    return Ok(());
  }

  /** The attribute loop, with Go's `attr++` taking 254 to 255 and so out of the loop. */
  method ReadAttributes(f: ByteReader.Reader) returns (r: Result<set<DatAttribute>, IoError>)
    modifies f
    ensures AttributesFrom(f.data, old(f.pos), {}).Err? ==> r == Err(AttributesFrom(f.data, old(f.pos), {}).error)
    ensures AttributesFrom(f.data, old(f.pos), {}).Ok? ==>
      r == Ok(AttributesFrom(f.data, old(f.pos), {}).value.0) && f.pos == AttributesFrom(f.data, old(f.pos), {}).value.1
  {
    var present: set<DatAttribute> := {};
    var attr: int := 0;
    while attr < AttributeLast as int
      invariant attr < AttributeLast as int ==> AttributesFrom(f.data, old(f.pos), {}) == AttributesFrom(f.data, f.pos, present)
      invariant attr >= AttributeLast as int ==> AttributesFrom(f.data, old(f.pos), {}) == Ok((present, f.pos))
      decreases Remaining(f.data, f.pos), AttributeLast as int - attr
    {
      var b := f.ReadByte();
      if b.Err? {
        return Err(b.error);
      }
      attr := b.value;
      if attr == AttributeLast as int {
        return Ok(present);
      }
      present := present + {b.value};
      var skipped := SkipAttribute(f, b.value);
      if skipped.Err? {
        return Err(skipped.error);
      }
      attr := attr + 1;
    }
    return Ok(present);
  }

  // Properties of the catalog parse.

  /** Keys are visited category by category, each id in its category's range. */
  lemma {:induction false} KeysInRange(counts: seq<nat>, cat: nat, id: nat)
    requires |counts| == CategoryCount
    ensures forall k :: k in Keys(counts, cat, id) ==>
      cat <= k.category < CategoryCount && k.id < counts[k.category]
      && (k.category == cat ==> id <= k.id)
      && (k.category != cat ==> FirstId(k.category) <= k.id)
    decreases CategoryCount - cat, if cat < CategoryCount && id < counts[cat] then counts[cat] - id else 0
  {
    if cat < CategoryCount {
      if id < counts[cat] {
        KeysInRange(counts, cat, id + 1);
      } else {
        KeysInRange(counts, cat + 1, FirstId(cat + 1));
      }
    }
  }

  predicate ValidKey(k: DatKey)
  {
    k.category < CategoryCount && FirstId(k.category) <= k.id <= 0x1_0000
  }

  predicate ValidCatalog(m: Catalog)
  {
    forall k :: k in m ==> ValidKey(k) && AttributeLast !in m[k]
  }

  /** The list terminator 255 is never recorded as present. */
  lemma {:induction false} TerminatorNotRecorded(file: seq<byte>, pos: nat, present: set<DatAttribute>)
    requires AttributeLast !in present
    ensures AttributesFrom(file, pos, present).Ok? ==>
      AttributeLast !in AttributesFrom(file, pos, present).value.0
      && present <= AttributesFrom(file, pos, present).value.0
    decreases Remaining(file, pos)
  {
    if pos < |file| && file[pos] != AttributeLast && file[pos] != Chargeable {
      var next := AfterAttribute(file, pos + 1, file[pos]);
      if next.Ok? {
        TerminatorNotRecorded(file, next.value, present + {file[pos]});
      }
    }
  }

  lemma {:induction false} EntriesValid(file: seq<byte>, pos: nat, keys: seq<DatKey>, acc: Catalog)
    requires ValidCatalog(acc) && forall k :: k in keys ==> ValidKey(k)
    ensures ValidCatalog(EntriesFrom(file, pos, keys, acc).entries)
    decreases |keys|
  {
    if keys != [] {
      var e := EntryAt(file, pos);
      if e.Ok? {
        TerminatorNotRecorded(file, pos, {});
        assert forall k :: k in keys[1..] ==> k in keys;
        EntriesValid(file, e.value.1, keys[1..], acc[keys[0] := e.value.0]);
      }
    }
  }

  /**
   * Every catalog ReadFile accepts has item ids from 100 and other ids from
   * 1, up to the largest count, in the four categories, and never marks the
   * terminator 255 as present.
   */
  lemma CatalogValid(file: seq<byte>)
    ensures ParseDat(file).Ok? ==> ValidCatalog(ParseDat(file).value)
  {
    var c := CountsFrom(file, SignatureSize, CategoryCount, []);
    if c.Ok? {
      var counts := c.value;
      assert forall i :: 0 <= i < CategoryCount ==> counts[i] <= 0x1_0000 by {
        CountsBounded(file, SignatureSize, CategoryCount, []);
      }
      KeysInRange(counts, 0, FirstId(0));
      EntriesValid(file, BodyStart, Keys(counts, 0, FirstId(0)), map[]);
    }
  }

  lemma {:induction false} CountsBounded(file: seq<byte>, pos: nat, k: nat, counts: seq<nat>)
    requires forall i :: 0 <= i < |counts| ==> counts[i] <= 0x1_0000
    ensures CountsFrom(file, pos, k, counts).Ok? ==>
      forall i :: 0 <= i < |CountsFrom(file, pos, k, counts).value| ==> CountsFrom(file, pos, k, counts).value[i] <= 0x1_0000
    decreases k
  {
    if k > 0 && pos + 2 <= |file| {
      CountsBounded(file, pos + 2, k - 1, counts + [U16At(file[pos..pos + 2], 0) + 1]);
    }
  }

  /** An attribute that is neither terminator nor 254 and carries no payload. */
  predicate PlainFlag(a: DatAttribute)
  {
    a != AttributeLast && a != Chargeable && a != Market && FixedSkip(a) == 0
  }

  function FlagSet(flags: seq<DatAttribute>): set<DatAttribute>
  {
    if flags == [] then {} else {flags[0]} + FlagSet(flags[1..])
  }

  /**
   * An attribute list of payload-free flags reads back as the set of those
   * flags, closed either by 255 or by 254, which is itself recorded; whatever
   * follows the closing byte is not part of the list.
   */
  lemma {:induction false} FlagsRoundTrip(pre: seq<byte>, flags: seq<DatAttribute>, close: DatAttribute, tail: seq<byte>, present: set<DatAttribute>)
    requires forall i :: 0 <= i < |flags| ==> PlainFlag(flags[i])
    requires close == AttributeLast || close == Chargeable
    ensures AttributesFrom(pre + flags + [close] + tail, |pre|, present)
      == Ok((present + FlagSet(flags) + (if close == Chargeable then {Chargeable} else {}), |pre| + |flags| + 1))
    decreases |flags|
  {
    var file := pre + flags + [close] + tail;
    if flags == [] {
      assert file[|pre|] == close;
      assert FlagSet(flags) == {};
      if close == Chargeable {
        assert FixedSkip(close) == 0;
        assert AfterAttribute(file, |pre| + 1, close) == Ok(|pre| + 1);
        assert AttributesFrom(file, |pre|, present) == Ok((present + {Chargeable}, |pre| + 1));
        assert present + FlagSet(flags) + {Chargeable} == present + {Chargeable};
        assert AttributesFrom(pre + flags + [close] + tail, |pre|, present) == Ok((present + {Chargeable}, |pre| + 1));
      }
    } else {
      assert file[|pre|] == flags[0];
      assert file == (pre + [flags[0]]) + flags[1..] + [close] + tail;
      FlagsRoundTrip(pre + [flags[0]], flags[1..], close, tail, present + {flags[0]});
      assert present + {flags[0]} + FlagSet(flags[1..]) == present + FlagSet(flags);
    }
  }

  /** One catalog entry as written: flags, the dimensions and the sprite ids. */
  datatype Entry = Entry(flags: seq<DatAttribute>, dims: seq<byte>, sprites: seq<byte>)

  predicate WellFormedEntry(e: Entry)
  {
    && (forall i :: 0 <= i < |e.flags| ==> PlainFlag(e.flags[i]))
    && |e.dims| == 7
    && |e.sprites| == 2 * SpriteCount(e.dims) as int
  }

  /** The bytes after the attribute list: the dimensions, the optional "real size" byte, the sprites. */
  function EncodeSprites(e: Entry): seq<byte>
    requires WellFormedEntry(e)
  {
    var realSize: seq<byte> := if e.dims[0] > 1 || e.dims[1] > 1 then [1] else [];
    e.dims[..2] + realSize + e.dims[2..] + e.sprites
  }

  function EncodeEntry(e: Entry): seq<byte>
    requires WellFormedEntry(e)
  {
    e.flags + [AttributeLast] + EncodeSprites(e)
  }

  lemma SpritesRoundTrip(pre: seq<byte>, e: Entry, tail: seq<byte>)
    requires WellFormedEntry(e)
    ensures SpritesAt(pre + EncodeSprites(e) + tail, |pre|) == Ok(|pre| + |EncodeSprites(e)|)
  {
    var file := pre + EncodeSprites(e) + tail;
    var p := |pre|;
    var realSize: seq<byte> := if e.dims[0] > 1 || e.dims[1] > 1 then [1] else [];
    var head := pre + e.dims[..2] + realSize;
    var q := |head|;
    assert file == head + e.dims[2..] + (e.sprites + tail);
    assert file[p..p + 2] == e.dims[..2];
    assert file[q..q + 5] == e.dims[2..];
    assert e.dims[..2] + e.dims[2..] == e.dims;
  }

  /** An entry reads back as its flag set, and the next entry starts right after it. */
  lemma EntryRoundTrip(pre: seq<byte>, e: Entry, tail: seq<byte>)
    requires WellFormedEntry(e)
    ensures EntryAt(pre + EncodeEntry(e) + tail, |pre|) == Ok((FlagSet(e.flags), |pre| + |EncodeEntry(e)|))
  {
    EntryFlags(pre, e, tail);
    EntrySprites(pre, e, tail);
  }

  /** The attribute list of an encoded entry reads back as its flag set, up to the 255 that closes it. */
  lemma EntryFlags(pre: seq<byte>, e: Entry, tail: seq<byte>)
    requires WellFormedEntry(e)
    ensures AttributesFrom(pre + EncodeEntry(e) + tail, |pre|, {}) == Ok((FlagSet(e.flags), |pre| + |e.flags| + 1))
  {
    assert pre + EncodeEntry(e) + tail == pre + e.flags + [AttributeLast] + (EncodeSprites(e) + tail);
    FlagsRoundTrip(pre, e.flags, AttributeLast, EncodeSprites(e) + tail, {});
    assert FlagSet(e.flags) == {} + FlagSet(e.flags) + {};
  }

  /** The dimensions and sprites of an encoded entry are stepped over in full. */
  lemma EntrySprites(pre: seq<byte>, e: Entry, tail: seq<byte>)
    requires WellFormedEntry(e)
    ensures SpritesAt(pre + EncodeEntry(e) + tail, |pre| + |e.flags| + 1) == Ok(|pre| + |EncodeEntry(e)|)
  {
    var head := pre + e.flags + [AttributeLast];
    assert pre + EncodeEntry(e) + tail == head + EncodeSprites(e) + tail;
    SpritesRoundTrip(head, e, tail);
  }

  predicate AllWellFormedEntries(es: seq<Entry>)
  {
    forall i :: 0 <= i < |es| ==> WellFormedEntry(es[i])
  }

  lemma TailOfWellFormedEntries(es: seq<Entry>)
    requires es != [] && AllWellFormedEntries(es)
    ensures WellFormedEntry(es[0]) && AllWellFormedEntries(es[1..])
  {
    forall i | 0 <= i < |es[1..]| ensures WellFormedEntry(es[1..][i]) {
      assert es[1..][i] == es[i + 1];
    }
  }

  function EncodeEntries(es: seq<Entry>): seq<byte>
    requires AllWellFormedEntries(es)
  {
    if es == [] then []
    else
      TailOfWellFormedEntries(es);
      EncodeEntry(es[0]) + EncodeEntries(es[1..])
  }

  /** The catalog after storing each entry's flags under the next key, in order. */
  function Fill(acc: Catalog, keys: seq<DatKey>, es: seq<Entry>): Catalog
    requires |es| <= |keys|
    decreases |es|
  {
    if es == [] then acc else Fill(acc[keys[0] := FlagSet(es[0].flags)], keys[1..], es[1..])
  }

  /** The entries' encodings sit one after the other in file from pos on. */
  predicate EntriesLaidOut(file: seq<byte>, pos: nat, es: seq<Entry>)
    requires AllWellFormedEntries(es)
    decreases |es|
  {
    if es == [] then true
    else
      TailOfWellFormedEntries(es);
      var n := |EncodeEntry(es[0])|;
      pos + n <= |file| && file[pos..pos + n] == EncodeEntry(es[0]) && EntriesLaidOut(file, pos + n, es[1..])
  }

  /** Encoded entries after pre are laid out from the end of pre. */
  lemma {:induction false} EncodedEntriesLaidOut(file: seq<byte>, pre: seq<byte>, es: seq<Entry>, tail: seq<byte>)
    requires AllWellFormedEntries(es) && file == pre + EncodeEntries(es) + tail
    ensures EntriesLaidOut(file, |pre|, es)
    decreases |es|
  {
    if es != [] {
      TailOfWellFormedEntries(es);
      var e, more := es[0], es[1..];
      var prefix := pre + EncodeEntry(e);
      assert file == prefix + EncodeEntries(more) + tail by {
        assert EncodeEntries(es) == EncodeEntry(e) + EncodeEntries(more);
      }
      assert file[|pre|..|prefix|] == EncodeEntry(e);
      EncodedEntriesLaidOut(file, prefix, more, tail);
    }
  }

  /** An entry's bytes found at pos read back as its flag set, and the next entry starts right after them. */
  lemma EntryAtLaidOut(file: seq<byte>, pos: nat, e: Entry)
    requires WellFormedEntry(e) && pos + |EncodeEntry(e)| <= |file| && file[pos..pos + |EncodeEntry(e)|] == EncodeEntry(e)
    ensures EntryAt(file, pos) == Ok((FlagSet(e.flags), pos + |EncodeEntry(e)|))
  {
    var pre, tail := file[..pos], file[pos + |EncodeEntry(e)|..];
    assert file == pre + EncodeEntry(e) + tail;
    EntryRoundTrip(pre, e, tail);
  }

  /**
   * Laid-out entries from pos are stored under the keys in visiting order,
   * and the loop carries on at last, just after them, with the keys left.
   */
  lemma {:induction false} EntriesThenRest(file: seq<byte>, pos: nat, es: seq<Entry>, keys: seq<DatKey>, acc: Catalog, last: nat)
    requires AllWellFormedEntries(es) && |es| <= |keys| && EntriesLaidOut(file, pos, es)
    requires last == pos + |EncodeEntries(es)|
    ensures EntriesFrom(file, pos, keys, acc) == EntriesFrom(file, last, keys[|es|..], Fill(acc, keys, es))
    decreases |es|
  {
    if es == [] {
      assert last == pos && keys[0..] == keys;
    } else {
      TailOfWellFormedEntries(es);
      var e, more := es[0], es[1..];
      var next := pos + |EncodeEntry(e)|;
      var filled := acc[keys[0] := FlagSet(e.flags)];
      EntryAtLaidOut(file, pos, e);
      EntriesStep(file, pos, keys, acc, FlagSet(e.flags), next);
      assert last == next + |EncodeEntries(more)|;
      EntriesThenRest(file, next, more, keys[1..], filled, last);
      assert keys[1..][|more|..] == keys[|es|..];
      assert Fill(acc, keys, es) == Fill(filled, keys[1..], more);
    }
  }

  /** EntriesFrom with keys left and an entry at pos, one entry unfolded. */
  lemma EntriesStep(file: seq<byte>, pos: nat, keys: seq<DatKey>, acc: Catalog, present: set<DatAttribute>, next: nat)
    requires keys != [] && EntryAt(file, pos) == Ok((present, next))
    ensures EntriesFrom(file, pos, keys, acc) == EntriesFrom(file, next, keys[1..], acc[keys[0] := present])
  {
  }

  /** The counts as the reader stores them: each one plus one. */
  function Stored(counts: seq<u16>): (r: seq<nat>)
    requires |counts| == CategoryCount
    ensures |r| == CategoryCount && forall i :: 0 <= i < CategoryCount ==> r[i] == counts[i] as nat + 1
  {
    [counts[0] as nat + 1, counts[1] as nat + 1, counts[2] as nat + 1, counts[3] as nat + 1]
  }

  function EncodeHeader(signature: seq<byte>, counts: seq<u16>): seq<byte>
    requires |signature| == SignatureSize && |counts| == CategoryCount
  {
    signature + LE16(counts[0]) + LE16(counts[1]) + LE16(counts[2]) + LE16(counts[3])
  }

  lemma HeaderCounts(signature: seq<byte>, counts: seq<u16>, body: seq<byte>)
    requires |signature| == SignatureSize && |counts| == CategoryCount
    ensures CountsFrom(EncodeHeader(signature, counts) + body, SignatureSize, CategoryCount, [])
      == Ok(Stored(counts))
    ensures |EncodeHeader(signature, counts)| == BodyStart
  {
    var file := EncodeHeader(signature, counts) + body;
    var c := Stored(counts);
    forall i | 0 <= i < 4
      ensures ReadAt(file, 4 + 2 * i, 2) == Ok(LE16(counts[i]))
      ensures U16At(LE16(counts[i]), 0) + 1 == c[i]
    {
      assert file[4 + 2 * i..6 + 2 * i] == LE16(counts[i]);
    }
    assert c[..3] + [c[3]] == c;
    assert CountsFrom(file, 10, 1, c[..3]) == Ok(c);
    assert c[..2] + [c[2]] == c[..3];
    assert CountsFrom(file, 8, 2, c[..2]) == Ok(c);
    assert c[..1] + [c[1]] == c[..2];
    assert CountsFrom(file, 6, 3, c[..1]) == Ok(c);
    assert [] + [c[0]] == c[..1];
  }

  /** Entries written after any prefix are read back under the keys, and the loop then stops at the end of the file. */
  lemma EntriesReadBack(pre: seq<byte>, es: seq<Entry>, keys: seq<DatKey>)
    requires AllWellFormedEntries(es) && |es| <= |keys|
    ensures var file := pre + EncodeEntries(es);
      EntriesFrom(file, |pre|, keys, map[]) == Scan(Fill(map[], keys, es), if |es| == |keys| then None else Some(EOF))
  {
    var file := pre + EncodeEntries(es);
    var fill := Fill(map[], keys, es);
    var rest := keys[|es|..];
    assert file == pre + EncodeEntries(es) + [];
    EncodedEntriesLaidOut(file, pre, es, []);
    EntriesThenRest(file, |pre|, es, keys, map[], |file|);
    assert EntryAt(file, |file|) == Err(EOF);
    assert EntriesFrom(file, |file|, rest, fill) == Scan(fill, if rest == [] then None else Some(EOF));
  }

  /**
   * Round trip of a whole catalog: a header and entries written in key order
   * read back as each entry's flag set under its key. Fewer entries than the
   * counts promise are accepted: the file then ends at an entry boundary, the
   * next read finds no byte, and io.EOF ends the parse successfully with the
   * entries read so far.
   */
  lemma CatalogRoundTrip(signature: seq<byte>, counts: seq<u16>, es: seq<Entry>)
    requires |signature| == SignatureSize && |counts| == CategoryCount && AllWellFormedEntries(es)
    requires |es| <= |Keys(Stored(counts), 0, FirstId(0))|
    ensures ParseDat(EncodeHeader(signature, counts) + EncodeEntries(es)) == Ok(Fill(map[], Keys(Stored(counts), 0, FirstId(0)), es))
  {
    var header := EncodeHeader(signature, counts);
    var file := header + EncodeEntries(es);
    var keys := Keys(Stored(counts), 0, FirstId(0));
    HeaderCounts(signature, counts, EncodeEntries(es));
    assert ReadAt(file, 0, SignatureSize).Ok?;
    assert Body(file) == EntriesFrom(file, BodyStart, keys, map[]);
    EntriesReadBack(header, es, keys);
  }
}

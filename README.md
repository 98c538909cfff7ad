# tcam in Dafny

A model of the decoding core of tcam, a reader for `.cam` captures of a
game's network protocol. The model covers:

- the capture loader (`loader/cam.go`). It splits a `.cam` file into timed packets.
- the packet value and its cursor (`network/packet.go`).
- the byte-level field readers shared by all decoders (`parser/helpers.go`).
- the decoders for the Talk, MoveCreature, ChangeOnMap, CreatureHealth,
  MarkCreature, PlayerData, LoginOrPendingState and MapLeftRow packets.
- the dispatch loop (`parser/process.go`). It turns packets into events and
  includes the optional "naive" Talk search.
- the object-attribute catalog read from the game's `.dat` file (`gamedata/dat.go`).
- the enumerations and their names (`enum/`).
- the bounded message context (`msgcontext/msgcontext.go`).
- the NPC response files and their matching (`npc/data.go`).

Code that works step by step on a reader keeps that form in the model:

- `ByteReader.Reader` is a class with a byte sequence and a position, mirroring `bytes.Reader`.
- The decoders, the loader, the `.dat` reader and the dispatch loop are
  methods that advance it.
- Each such method is proved equal to a pure function. That function is the
  reference definition the lemmas speak about: round trips from an encoder,
  error paths and the dispatch rules.
- `MsgContext.Context` and `GameData.GameData` are classes whose fields the
  methods update.

Go's runtime failures are modelled as values. A slice past the end of a
packet (`p.Next(cur)`, `p.Data[cur:]`) panics in Go. Here it is the decode
result `OutOfRange`, and the dispatch loop then ends with `Crashed`. An end of
input that Go reports as `io.EOF` is kept apart from `io.ErrUnexpectedEOF`
throughout, because the loader and the dispatch loop treat the two
differently.

## Model

| member | source | states |
|---|---|---|
| Bytes.ReadAt | parser/helpers.go:33-45 | a read of k bytes succeeds exactly when k is 0 or the bytes are there, and yields them; otherwise it fails with EOF at the end and UnexpectedEOF on a short read |
| Bytes.PosAfterRead | parser/helpers.go:39-42 | a failed read leaves the reader at the end of the data (or where it was, past the end), as bytes.Reader does |
| Bytes.LE16 | parser/helpers.go:13-15 | little-endian encoding of a u16 is two bytes that read back as the value |
| Bytes.WrapSub64 | loader/cam.go:66 | the tick difference is uint64 subtraction, wrapping when the tick is below the start tick |
| ByteReader.Reader.ReadFull | parser/helpers.go:39-42 | io.ReadFull on the reader: result and new position follow ReadAt and PosAfterRead |
| ByteReader.Reader.ReadU16 | parser/helpers.go:13-15 | binary.Read of a uint16: the little-endian value of the next two bytes, or the short-read error |
| ByteReader.Reader.ReadByte | parser/packet_talk.go:42-45 | a one-byte read yields the byte or EOF at the end, and moves by one only on success |
| ByteReader.Reader.Seek | parser/helpers.go:22-27 | a relative seek succeeds whenever the target is not negative, also past the end; a negative target fails and the position stays |
| Network.Next | network/packet.go:18-29 | Next(n) is nil exactly at the end of the data; otherwise it keeps the global and time offsets, advances the local offset by n and covers the same end |
| Network.OpCode | network/packet.go:44-49 | the opcode is the first byte, or 0 for an empty packet |
| Network.OffsetParts | network/packet.go:35-38 | the printed offset splits the absolute position into a multiple of 16 plus a remainder below 16 |
| Network.AdvanceVisitsEachOffset | parser/process.go:67-75 | repeated Next(1) from a packet visits the suffix at every local offset k and ends with nil after the last byte |
| Loader.FrameAt | loader/cam.go:47-68 | a frame read at pos yields a packet whose global offset is pos+10, whose payload is the bytes after the length field, and ends right after them |
| Loader.ReadFrame | loader/cam.go:47-68 | the reader-based frame read equals FrameAt and leaves the reader after the payload |
| Loader.ReadFile | loader/cam.go:13-82 | the packets and the end reason (clean at io.EOF, an error otherwise) are those of the reference reading ReadCapture |
| Loader.CaptureRoundTrip | loader/cam.go:32-78 | a header followed by encoded frames reads back as those frames in order, time offsets relative to the first tick, ending cleanly |
| Loader.TrailingBytes | loader/cam.go:46-62 | after whole frames, 0 or 8 trailing bytes end cleanly, 1 to 7 or 9 end with an unexpected-EOF error, and the frames before are all delivered |
| Loader.FirstTimeOffsetIsZero | loader/cam.go:37-45 | the first packet is at time offset 0 and at global offset 22 |
| Loader.HeaderIgnored | loader/cam.go:32-35 | the 12 header bytes do not influence the result |
| Helpers.U16Read | parser/helpers.go:13-15 | a u16 field read succeeds exactly when two bytes remain, with EOF or UnexpectedEOF otherwise |
| Helpers.StrAt | parser/helpers.go:33-45 | a string field is a u16 length and that many bytes; it fails with an I/O error exactly when either is missing |
| Helpers.StrRoundTrip | parser/helpers.go:33-45 | an encoded string followed by anything reads back as itself, ending right after it |
| Helpers.MappedThingAt | parser/helpers.go:55-76 | a mapped thing needs its first two bytes and always spans six bytes |
| Helpers.OutfitAt | parser/helpers.go:158-171 | an outfit is a u16 look type followed by a 2-byte LookTypeEx when it is 0 and by 4 colour bytes otherwise; it fails exactly when the look type is missing |
| Helpers.CreatureAt | parser/helpers.go:94-156 | a creature record's length per kind: a known creature 5 bytes; an outdated creature 6 bytes, an outfit and 6 bytes; an unknown creature 8 bytes, a name, 2 bytes, an outfit and 6 bytes; Invalid a 2-byte type and then an outdated creature; any other id nothing |
| Helpers.ItemSkips | parser/helpers.go:204-214 | the skip-override table decides for the ids it lists; an id missing from the catalog has an extra byte only when that table says so |
| Helpers.ItemAt | parser/helpers.go:173-202 | an item takes one extra byte when it skips; an Invalid id reads the real id from the next two bytes first |
| Helpers.ThingAt | parser/helpers.go:78-92 | a thing is a u16 id: 0 is an invalid-id error, creature sentinels read a creature record, any other id an item |
| Helpers.Skip | parser/helpers.go:22-27 | skip moves the reader by n unless the target is negative |
| Helpers.ReadU16 | parser/helpers.go:13-15 | the reader-based u16 read equals U16Read |
| Helpers.Str | parser/helpers.go:33-45 | the reader-based string read equals StrAt and leaves the reader after the string |
| Helpers.MappedThing | parser/helpers.go:55-76 | the reader-based read equals MappedThingAt in result and position |
| Helpers.Outfit | parser/helpers.go:158-171 | the reader-based read equals OutfitAt in result and position |
| Helpers.Creature | parser/helpers.go:94-156 | the reader-based read equals CreatureAt in result and position |
| Helpers.Item | parser/helpers.go:173-202 | the reader-based read equals ItemAt in result and position |
| Helpers.Thing | parser/helpers.go:78-92 | the reader-based read equals ThingAt in result and position |
| Events.WrongOpCode | parser/packet_talk.go:20-22 | a packet with another opcode is rejected with an unexpected-opcode error |
| Events.Resume | parser/packet_creature_health.go:29 | continuing at cur never fails: it panics past the end, yields no remainder exactly at the end, and otherwise yields the last bytes of the packet from cur on, ending where the packet ends, with the packet's global and time offsets |
| Events.Slice | parser/packet_talk.go:97-105 | continuing at cur by slicing never fails: it panics past the end, yields no remainder exactly at the end, and otherwise yields the last bytes of the packet from cur on, keeping all three of the packet's offsets unchanged |
| TalkPacket.DecodeTalk | parser/packet_talk.go:19-108 | only opcode 170 is accepted; a decoded Talk has an accepted mode; the remainder is a proper suffix; it never panics |
| TalkPacket.ModeClasses | parser/packet_talk.go:47-78 | which modes carry a 5-byte position, a 2-byte channel id or nothing; modes 0 and 14 are rejected |
| TalkPacket.ParseTalk | parser/packet_talk.go:19-108 | the reader-based decode equals DecodeTalk |
| TalkPacket.ReadTalkFrom | parser/packet_talk.go:42-105 | the reader-based decode of mode, extra bytes and message equals TalkFrom |
| TalkPacket.TalkRoundTrip | parser/packet_talk.go:19-108 | an encoded Talk followed by any tail decodes to its name, mode and message, with the tail as the remainder (nil when empty) |
| TalkPacket.UnknownModeRejected | parser/packet_talk.go:76-77 | a mode outside the three groups fails with that mode, whatever follows |
| TalkPacket.TruncatedTalkFails | parser/packet_talk.go:31-89 | any proper prefix of an encoded Talk fails with EOF or UnexpectedEOF |
| MoveCreaturePacket.DecodeMoveCreature | parser/packet_move_creature.go:13-44 | opcode check; fewer than 3 bytes is a read error, 3 to 11 a panic, exactly 12 nothing left, more a remainder after byte 12 |
| MoveCreaturePacket.ParseMoveCreature | parser/packet_move_creature.go:13-44 | the reader-based decode equals DecodeMoveCreature |
| ChangeOnMapPacket.DecodeChangeOnMap | parser/packet_change_on_map.go:13-34 | opcode check; a short header is a read error; an Invalid thing id fails; a creature thing is read as a creature; remainders are shorter than the packet |
| ChangeOnMapPacket.ParseChangeOnMap | parser/packet_change_on_map.go:13-34 | the reader-based decode equals DecodeChangeOnMap |
| FixedPackets.DecodeFixed | parser/packet_creature_health.go:13-30 | a fixed-size decoder fails exactly on another opcode; it panics exactly when the packet is shorter than the opcode and its fields; otherwise it emits its event, with no remainder exactly when the packet has that length and else the bytes after the fields, local offset advanced |
| FixedPackets.ParseFixed | parser/packet_creature_health.go:13-30 | the reader-based decode equals DecodeFixed |
| FixedPackets.DecodeCreatureHealth | parser/packet_creature_health.go:13-30 | opcode check; under 6 bytes panics, 6 bytes leaves nothing, more leaves the rest |
| FixedPackets.DecodeMarkCreature | parser/packet_mark_creature.go:13-30 | opcode check; under 6 bytes panics, 6 bytes leaves nothing, more leaves the rest |
| FixedPackets.DecodePlayerData | parser/packet_player_data.go:13-32 | opcode check; under 21 bytes panics, 21 bytes leaves nothing, more leaves the rest |
| FixedPackets.DecodeLoginOrPendingState | parser/packet_login_or_pending_state.go:13-31 | opcode check; under 8 bytes panics, 8 bytes leaves nothing, more leaves the rest |
| MapLeftRowPacket.DecodeMapLeftRow | parser/packet_map_left_row.go:34-99 | another opcode is rejected; with opcode 104 the only errors are read errors and the invalid-id error, and a packet of the opcode alone hits io.EOF; a decoded row is the MapLeftRow event, and its remainder is a suffix at least three bytes shorter that ends where the packet ends (TerminatedRow and FullRow give the exact remainder) |
| MapLeftRowPacket.ParseMapLeftRow | parser/packet_map_left_row.go:34-99 | the reader-based decode equals DecodeMapLeftRow |
| MapLeftRowPacket.ReadRowAfterOpCode | parser/packet_map_left_row.go:38-98 | the reader-based scan after the opcode ends where RowEnd says |
| MapLeftRowPacket.RowEnd | parser/packet_map_left_row.go:79-96 | the scan fails only with a read error or the invalid-id error, and, while stack positions remain, stops at least one u16 further on |
| MapLeftRowPacket.ReadRow | parser/packet_map_left_row.go:79-96 | the loop over at most 256 stack entries ends where RowEnd says |
| MapLeftRowPacket.ReadRowEntry | parser/packet_map_left_row.go:80-95 | one loop iteration either stops the row or continues at the next stack position |
| MapLeftRowPacket.PlainItemsSkipped | parser/packet_map_left_row.go:79-96 | a run of plain item ids is passed over two bytes at a time, one stack position each |
| MapLeftRowPacket.RunThenTerminator | parser/packet_map_left_row.go:85-87 | a run of items followed by a value of 0xFF00 or more ends the row right after that value |
| MapLeftRowPacket.RunThenInvalid | parser/packet_map_left_row.go:89-95 | a run of items followed by id 0 fails with the invalid-id error |
| MapLeftRowPacket.FullRun | parser/packet_map_left_row.go:79-98 | 256 plain items end the row after them with no terminator read |
| MapLeftRowPacket.TerminatedRow | parser/packet_map_left_row.go:34-99 | a packet holding an encoded row of fewer than 256 plain items and a terminator decodes to MapLeftRow with the bytes after the terminator as the remainder |
| MapLeftRowPacket.FullRow | parser/packet_map_left_row.go:34-99 | a packet holding an encoded row of 256 plain items decodes to MapLeftRow with the bytes after them as the remainder, whatever they are |
| MapLeftRowPacket.InvalidIdInRow | parser/packet_map_left_row.go:89-95 | an encoded row whose id after the items is 0 fails the scan |
| Process.Decoder | parser/process.go:49-66 | exactly Talk, MoveCreature, ChangeOnMap, PlayerData, MarkCreature and CreatureHealth have a decoder; none fails on the opcode; a remainder is a non-empty proper suffix of the packet's data |
| Process.TalkAt | parser/process.go:67-75 | a Talk found by the naive search is a Talk event |
| Process.Dispatch | parser/process.go:49-96 | one step of the loop shrinks the pending packet; it crashes only in a decoder's panic or on an empty payload under the naive search |
| Process.ScanTalk | parser/process.go:67-84 | the naive search loop computes NaiveScan |
| Process.DispatchOne | parser/process.go:49-96 | the imperative step equals Dispatch |
| Process.Pass | parser/process.go:34-102 | one pass of the loop takes a packet only when none is pending, and its effect on the output is one emitted value followed by the rest of the run |
| Process.ParsePackets | parser/process.go:17-108 | the emitted values and the end reason are those of the reference run Run |
| Process.NoTalkKeepsRet | parser/process.go:67-84 | without byte 170 after offset k, the naive search leaves the previous value |
| Process.LastTalkDecides | parser/process.go:67-84 | the naive search's result is the decode at the last offset holding byte 170 |
| Process.NaiveSearchRepeatsLastValue | parser/process.go:67-102 | an unknown packet without a Talk byte makes the loop emit the previous value again |
| Process.UnhandledEmitsOpCode | parser/process.go:85-87 | without the naive search, an unknown packet emits its opcode as unhandled |
| Process.AllUnhandled | parser/process.go:85-102 | a run of unknown packets emits one unhandled opcode per packet, in order, and ends cleanly |
| Process.DecoderFailureEndsRun | parser/process.go:94-96 | a failed decode ends the run at once with nothing more emitted: io.EOF closes the output, any other error is reported |
| Process.ShortTalkHitsEof | parser/packet_talk.go:26-33 | a Talk packet of at most five bytes fails with io.EOF |
| Process.TalkEofClosesOutput | parser/process.go:22-28 | a Talk packet of at most five bytes taken from the input closes the output cleanly, emitting nothing more |
| Process.DecoderErrorReported | parser/process.go:94-96 | any decoder error other than io.EOF on a packet taken from the input ends the run with that error |
| Process.InvalidThingReported | parser/process.go:94-96 | a ChangeOnMap packet whose thing id is 0 ends the run with the invalid-id error |
| GameData.ByteRun | gamedata/dat.go:41-56 | a run of k bytes reads exactly when present, else EOF |
| GameData.AfterAttribute | gamedata/dat.go:73-121 | each attribute's payload has its fixed size; Market reads a name length and skips it |
| GameData.AttributesFrom | gamedata/dat.go:62-122 | the attribute list always consumes at least its terminator |
| GameData.SizeAt | gamedata/dat.go:124-136 | width and height are two bytes, then one more byte when either exceeds 1 |
| GameData.SpritesAt | gamedata/dat.go:124-158 | the sprite block is at least 7 bytes: size, 5 dimensions, then 2 bytes per sprite |
| GameData.EntryAt | gamedata/dat.go:62-158 | an entry always advances past its start |
| GameData.CountsFrom | gamedata/dat.go:41-48 | the count header adds one count per category after those read |
| GameData.GameData.ReadFile | gamedata/dat.go:25-172 | on success the catalog is the reference parse; on failure the error is returned and the catalog is unchanged |
| GameData.ReadCounts | gamedata/dat.go:41-48 | the reader-based count header equals CountsFrom |
| GameData.ReadBody | gamedata/dat.go:50-160 | the reader-based body read equals Body |
| GameData.ReadEntry | gamedata/dat.go:62-158 | the reader-based entry read equals EntryAt |
| GameData.ReadSprites | gamedata/dat.go:124-158 | the reader-based sprite skip equals SpritesAt |
| GameData.ReadSize | gamedata/dat.go:124-136 | the reader-based size read equals SizeAt |
| GameData.ReadDimensions | gamedata/dat.go:138-153 | the five dimension bytes are read as a ByteRun |
| GameData.SkipAttribute | gamedata/dat.go:73-121 | the reader-based attribute payload skip equals AfterAttribute |
| GameData.ReadAttributes | gamedata/dat.go:62-122 | the reader-based attribute loop equals AttributesFrom |
| GameData.KeysInRange | gamedata/dat.go:50-56 | entry keys run over items from id 100 and the other categories from id 1, within their counts |
| GameData.TerminatorNotRecorded | gamedata/dat.go:62-72 | the end-of-attributes marker is never stored as an attribute |
| GameData.CatalogValid | gamedata/dat.go:50-160 | every stored key has a category and id in range and no stored set holds the terminator |
| GameData.CountsBounded | gamedata/dat.go:41-48 | every stored count is at most 65536 |
| GameData.FlagsRoundTrip | gamedata/dat.go:62-122 | a list of payload-less attributes closed by the terminator or Chargeable reads back as its set |
| GameData.SpritesRoundTrip | gamedata/dat.go:124-158 | an encoded sprite block is skipped exactly |
| GameData.EntryRoundTrip | gamedata/dat.go:62-158 | an encoded entry reads back as its attribute set and ends after it |
| GameData.HeaderCounts | gamedata/dat.go:32-48 | an encoded header reads back as the stored counts, each one above the field |
| GameData.EntriesReadBack | gamedata/dat.go:50-160 | encoded entries fill the catalog under consecutive keys |
| GameData.CatalogRoundTrip | gamedata/dat.go:25-172 | an encoded file parses to the catalog of its entries |
| Items.Sentinels | enum/item.go:7-26 | exactly ids 0, 97, 98 and 99 are named, under distinct names, and 97-99 are the creatures |
| DatEnums.Categories | enum/dat.go:7-29 | categories up to Invalid are named; others render "Unknown-n" |
| DatEnums.ListedAttributes | enum/dat.go:33-87 | exactly the attributes 0-38, 100, 101 and 253-255 are named |
| DatEnums.AttributeStrings | enum/dat.go:33-38 | two examples: Stackable renders "Stackable-5", Chargeable "Chargeable-254" |
| DatEnums.AttributeNamesPlain | enum/dat.go:89-133 | no listed attribute name holds a '-' or is "Unknown" |
| DatEnums.AttributeStringSplits | enum/dat.go:33-38 | every attribute's rendering splits at '-' into its listed name, or "Unknown", and its number in decimal |
| OpCodes.ListedNamesNotUn | enum/opcode.go:106-196 | no listed opcode name starts with "Un" |
| OpCodes.UnknownPrefixIffUnlisted | enum/opcode.go:7-11 | an opcode's name starts with "Unknown" exactly when it is not listed |
| OpCodeNameInverse.NameIdentifiesOpCode | enum/opcode.go:106-196 | every listed name leads back to its opcode |
| OpCodeNameInverse.NamesDistinct | enum/opcode.go:106-196 | no two opcodes share a listed name |
| OpCodes.EmptyPacketOpCodeName | enum/opcode.go:7-11 | opcode 0, the empty packet's opcode, is unlisted, as is every code below the first one |
| MessageModes.ListedValues | enum/message.go:61-106 | which message modes are named |
| MessageModes.Mode14Listed | enum/message.go:61-106 | mode 14 renders as "Weird-14" |
| MessageModes.UnlistedRendersUnknown | enum/message.go:7-12 | every mode the table does not list renders "Unknown-n" |
| MessageModes.NameIdentifiesMode | enum/message.go:61-106 | every listed name leads back to its mode |
| MessageModes.NamesDistinct | enum/message.go:61-106 | no two modes share a listed name |
| MsgContext.AddedKeepsNewest | msgcontext/msgcontext.go:18-25 | after a Put the buffer holds the newest messages, in order, never more than the capacity, the new one last |
| MsgContext.Context.TrySend | msgcontext/msgcontext.go:19-20 | a non-blocking send appends exactly when there is room |
| MsgContext.Context.TryReceive | msgcontext/msgcontext.go:22 | a non-blocking receive takes the oldest message, or nothing from an empty buffer |
| MsgContext.Context.Put | msgcontext/msgcontext.go:18-25 | Put appends, dropping the oldest first when full |
| MsgContext.Context.Pop | msgcontext/msgcontext.go:27-37 | Pop returns all buffered messages oldest first and empties the buffer |
| MsgContext.Context.Clear | msgcontext/msgcontext.go:39-47 | Clear empties the buffer |
| Npc.DynamicMatch | npc/data.go:65-75 | a dynamic response matches exactly when the text starts with its literal prefix and its pattern matches |
| Npc.Match | npc/data.go:39-57 | a response set matches a static reply, a dynamic one or, recursively, an included set |
| Npc.MoreFuel | npc/data.go:39-57 | a match found with some include depth is still found with more |
| Npc.IsRetailResponse | npc/data.go:16-23 | a retail response belongs to a known NPC and matches that NPC's responses |
| Npc.MapMatch | npc/data.go:27-29 | an unknown name never matches; a known one matches as its responses do |
| Npc.SkipSpace | npc/data.go:82-83 | leading white space is dropped and nothing else |
| Npc.Captured | npc/data.go:82-83 | a captured value is non-empty and quote-free |
| Npc.CapturedRoundTrip | npc/data.go:82-83 | white space, the lead, a value and a closing quote capture exactly the value |
| Npc.QuoteMetaRoundTrip | npc/data.go:161-167 | quoting regex metacharacters loses nothing |
| Npc.QuoteMetaPlain | npc/data.go:161-167 | text without metacharacters is quoted as itself |
| Npc.NumberPlaceholder | npc/data.go:161-167 | "%P" in a reply becomes a pattern for one or more digits |
| Npc.ToDynamic | npc/data.go:161-172 | a dynamic response's prefix is the reply up to its first '%' |
| Npc.AddResponse | npc/data.go:159-176 | a reply without '%' becomes a static response, one with '%' a dynamic one; known static replies stay |
| Npc.KnownStaysKnown | npc/data.go:159-176 | adding the quoted pieces of a line keeps every static reply already known |
| Npc.PlainReplyKnown | npc/data.go:159-176 | every quoted piece of a line without '%' becomes a static reply |
| Npc.DynamicGrows | npc/data.go:159-176 | adding pieces only appends dynamic responses |
| Npc.AddResponses | npc/data.go:159-176 | the loop over the quoted pieces equals AddPieces |
| Npc.IncludeStep | npc/data.go:179-181 | a line starting with '@' adds its quoted include or crashes when there is none; other lines change nothing |
| Npc.LineStep | npc/data.go:140-182 | the first name line sets the name; later lines add replies and includes; nothing else changes |
| Npc.LinesFrom | npc/data.go:140-182 | the file's lines keep the file name and, once set, the NPC name |
| Npc.FileResponses | npc/data.go:135-184 | a parsed file keeps its file name, and an include file has no NPC name |
| Npc.ParseFile | npc/data.go:135-184 | the imperative file parse equals FileResponses |
| Npc.ParseLine | npc/data.go:140-182 | the imperative line step equals LineStep |
| Npc.NameFromFirstNameLine | npc/data.go:146-150 | the NPC name comes from the first line that matches the name pattern |
| Npc.ReplyLine | npc/data.go:152-176 | a reply line "pattern -> "text"" adds the text as a static reply |
| Npc.ArrowLine | npc/data.go:152-176 | a line with "->" adds the quoted pieces after it |
| Npc.IncludeLine | npc/data.go:179-181 | a line @"name" adds the named include |
| Npc.UnquotedIncludeCrashes | npc/data.go:180 | a line '@' not followed by a quoted name makes the parse fail |
| Npc.UnquotedReplySkipped | npc/data.go:155-157 | a reply line without quotes changes nothing |

## Left out

- I/O is left out: opening files, channels, `context` cancellation, logging,
  and the goroutines in `loader/cam.go`, `parser/process.go` and `gamedata/dat.go`.
  Files and packet streams are given as sequences; the "BAD PACKET" log line
  at `parser/process.go:90-92` is not modelled.
- `tcam.go` and `loader/process.go` are not part of this model.
- TalkPacket.DecodeTalk and MoveCreaturePacket.DecodeMoveCreature: the
  remainder packet built with an `Offset` field at `parser/packet_talk.go:101-104` and
  `parser/packet_move_creature.go:37-40` is modelled as the suffix of the data
  with the parent's offsets copied. The `Offset` field does not exist in
  `network/packet.go`.
- `parser/process.go:51` and `:77` pass a second argument to `parseTalk`. The
  model uses `parseTalk` with the one packet argument it is declared with.
- Process.Dispatch: MapLeftRow is not dispatched; its case is commented out at
  `parser/process.go:63-65`. The decoder is modelled on its own.
- Loader.ReadFile: a partial trailing tick or length field ends the
  capture with an unexpected-EOF error, as the code does, not with a clean end.
- Loader.FrameAt: the time offset is the wrapped uint64 tick difference.
  The conversion to a `time.Duration` in milliseconds, and its overflow,
  are not modelled.
- Network.OffsetParts: only the two numbers are modelled, not the `%8x`/`%03d`
  formatting of `String`, `Offset` and `Time`.
- Seek errors from the operating system and `os.Open` failures are left out.
  Only the negative-position error of `bytes.Reader` is modelled.
- The reader position after a failed decoder is not specified, because the
  source discards the reader.
- GameData.GameData.ReadFile: an EOF on the 4-byte signature is returned as an
  error, because the code reads it outside the function whose EOF counts as success.
- GameData: the `.dat` catalog is passed as a parameter to the decoders instead of the
  package-level `gamedata.Attrs`.
- MsgContext.Context.Put: requires a capacity of at least 1; a zero-size
  context blocks forever in Go.
- MsgContext.Context.Put: the fallback at `msgcontext/msgcontext.go:21-23` is
  two separate channel operations. Concurrent callers can interleave between
  the receive and the send; the model has a single caller.
- Process.Dispatch: an empty payload with the naive Talk search on ends the run
  as `Crashed`, the model of the slice panic.
- Npc.IncludeStep: an '@' line without a quoted name panics in Go; the model
  returns None for the whole file parse.
- Npc: line splitting by `bufio.Scanner`, the ISO-8859-1 decoding, `init`,
  `gob` and `embed` are left out. The file arrives as a sequence of lines.
  The retail NPC and include maps are parameters.
- Npc.DynamicMatch: the regular-expression engine is a parameter (`Matcher`),
  so a dynamic pattern is matched however that engine decides. The cached
  compiled pattern, set on a value receiver, has no observable effect and is
  left out.
- Npc.Match: includes are followed to a depth given by a `fuel` argument.
  The Go code recurses without a bound and would not terminate on cyclic
  includes.
- Loader.FrameAt: frame payloads are generated from `Frame` values whose tick
  and length fields have the right sizes by type.
- MapLeftRowPacket: the row lemmas are stated about the row's end position
  `RowEnd` and the encoded rows, not about every decoder path.

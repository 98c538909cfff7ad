/**
 * The dispatch loop (parser/process.go, `ParsePackets`). Input packets are
 * taken one at a time; a packet's opcode picks its decoder, and a decoder's
 * remainder is decoded before the next input packet is taken. Each decoded
 * event is emitted in order. A decoder error ends the run: io.EOF closes the
 * output as a clean end would, any other error is reported. Packets no
 * decoder takes emit their opcode, or, with the naive Talk search on, are
 * scanned byte by byte for an embedded Talk packet.
 *
 * The channels become an input sequence and an emitted sequence; the
 * `naive_talk_search` flag and the item catalog are parameters.
 */
module Process {
  import opened Wrappers
  import opened Bytes
  import opened Network
  import opened Events
  import opened Helpers
  import OpCodes
  import GameData
  import TalkPacket
  import MoveCreaturePacket
  import ChangeOnMapPacket
  import FixedPackets

  /** How a run ends: the output closed, an error reported, or a Go runtime panic. */
  datatype End = Closed | Error(error: ParseError) | Crashed

  /** Everything a run emits, in order, and how it ends. Go sends `nil` for a failed naive Talk parse: that is None. */
  datatype Outcome = Outcome(emitted: seq<Option<Event>>, end: End)

  /** One pass of the loop body: a value to emit and the packet still to decode, or the end of the run. */
  datatype Step = Emit(value: Option<Event>, next: Option<Packet>) | Stop(end: End)

  /** The opcodes the switch hands to a decoder; MapLeftRow and LoginOrPendingState are not among them. */
  const Dispatched: set<OpCodes.OpCode> := {
    OpCodes.Talk, OpCodes.MoveCreature, OpCodes.ChangeOnMap,
    OpCodes.PlayerData, OpCodes.MarkCreature, OpCodes.CreatureHealth
  }

  /** What the switch does with a packet: run its decoder, or None for the default branch. */
  function Decoder(p: Packet, attrs: GameData.Catalog): (d: Option<Decoded>)
    ensures d.Some? <==> OpCode(p) in Dispatched
    ensures d.Some? && d.value.Failed? ==> !d.value.error.UnexpectedOpCode?
    ensures d.Some? && d.value.Decoded? && d.value.rest.Some? ==>
      && 0 < |d.value.rest.value.data| < |p.data|
      && d.value.rest.value.data == p.data[|p.data| - |d.value.rest.value.data|..]
  {
    var c := OpCode(p);
    if c == OpCodes.Talk then Some(TalkPacket.DecodeTalk(p))
    else if c == OpCodes.MoveCreature then Some(MoveCreaturePacket.DecodeMoveCreature(p))
    else if c == OpCodes.ChangeOnMap then Some(ChangeOnMapPacket.DecodeChangeOnMap(p, attrs))
    else if c == OpCodes.PlayerData then Some(FixedPackets.DecodePlayerData(p))
    else if c == OpCodes.MarkCreature then Some(FixedPackets.DecodeMarkCreature(p))
    else if c == OpCodes.CreatureHealth then Some(FixedPackets.DecodeCreatureHealth(p))
    else None
  }

  /** The window the naive search parses as a Talk at offset k of p. */
  function At(p: Packet, k: nat): Packet
    requires k <= |p.data|
  {
    Packet(p.globalOffset, p.localOffset + k, p.timeOffset, p.data[k..])
  }

  /** What a Talk parse at offset k leaves in `ret`: the event, or nil when the parse fails. */
  function TalkAt(p: Packet, k: nat): (v: Option<Event>)
    requires k < |p.data|
    ensures v.Some? ==> v.value.Talk?
  {
    var d := TalkPacket.DecodeTalk(At(p, k));
    if d.Decoded? then Some(d.event) else None
  }

  /**
   * The naive search from offset k on, with `ret` holding ret: every offset
   * whose byte is the Talk opcode is parsed as a Talk and overwrites ret.
   */
  function NaiveScan(p: Packet, k: nat, ret: Option<Event>): Option<Event>
    requires 1 <= k <= |p.data|
    decreases |p.data| - k
  {
    if k == |p.data| then ret
    else NaiveScan(p, k + 1, if p.data[k] == OpCodes.Talk then TalkAt(p, k) else ret)
  }

  /** One pass of the loop body on pkt, with ret the value the previous pass left. */
  function Dispatch(p: Packet, ret: Option<Event>, naive: bool, attrs: GameData.Catalog): (s: Step)
    ensures s.Emit? && s.next.Some? ==> |s.next.value.data| < |p.data|
    ensures s == Stop(Crashed) ==> (OpCode(p) in Dispatched || (naive && |p.data| == 0))
  {
    match Decoder(p, attrs)
    case Some(Decoded(ev, rest)) => Emit(Some(ev), rest)
    case Some(Failed(e)) => Stop(if e == Io(EOF) then Closed else Error(e))
    case Some(OutOfRange) => Stop(Crashed)
    case None =>
      if !naive then Emit(Some(Unhandled(OpCode(p))), None)
      // `Next(1)` slices an empty payload out of range.
      else if |p.data| == 0 then Stop(Crashed)
      else Emit(NaiveScan(p, 1, ret), None)
  }

  function Prepend(values: seq<Option<Event>>, o: Outcome): Outcome
  {
    Outcome(values + o.emitted, o.end)
  }

  function Size(pkt: Option<Packet>): nat
  {
    if pkt.None? then 0 else |pkt.value.data| + 1
  }

  /**
   * The loop from input position i, with pkt the packet still to decode (nil:
   * take the next input packet) and ret the value the last pass left.
   */
  function RunFrom(packets: seq<Packet>, i: nat, pkt: Option<Packet>, ret: Option<Event>,
                   naive: bool, attrs: GameData.Catalog): Outcome
    requires i <= |packets|
    decreases |packets| - i, Size(pkt)
  {
    match pkt
    case None =>
      if i == |packets| then Outcome([], Closed)
      else RunFrom(packets, i + 1, Some(packets[i]), ret, naive, attrs)
    case Some(p) =>
      match Dispatch(p, ret, naive, attrs)
      case Stop(end) => Outcome([], end)
      case Emit(v, next) => Prepend([v], RunFrom(packets, i, next, v, naive, attrs))
  }

  /** `ParsePackets` over a whole input: nothing pending and `ret` nil at the start. */
  function Run(packets: seq<Packet>, naive: bool, attrs: GameData.Catalog): Outcome
  {
    RunFrom(packets, 0, None, None, naive, attrs)
  }

  /** The naive search: step `Next(1)` until nil, parsing a Talk wherever the byte is its opcode. */
  method ScanTalk(p: Packet, ret0: Option<Event>) returns (ret: Option<Event>)
    requires |p.data| > 0
    ensures ret == NaiveScan(p, 1, ret0)
  {
    ret := ret0;
    var base := p;
    var k := 0;
    while true
      invariant k < |p.data| && base == At(p, k)
      invariant NaiveScan(p, 1, ret0) == NaiveScan(p, k + 1, ret)
      decreases |p.data| - k
    {
      var next := Next(base, 1);
      if next.None? {
        break;
      }
      base, k := next.value, k + 1;
      if OpCode(base) == OpCodes.Talk {
        var d := TalkPacket.ParseTalk(base);
        ret := if d.Decoded? then Some(d.event) else None;
      }
    }
  }

  /** The switch and the default branch for one packet. */
  method DispatchOne(p: Packet, ret: Option<Event>, naive: bool, attrs: GameData.Catalog) returns (s: Step)
    ensures s == Dispatch(p, ret, naive, attrs)
  {
    var c := OpCode(p);
    var d: Decoded;
    if c == OpCodes.Talk {
      d := TalkPacket.ParseTalk(p);
    } else if c == OpCodes.MoveCreature {
      d := MoveCreaturePacket.ParseMoveCreature(p);
    } else if c == OpCodes.ChangeOnMap {
      d := ChangeOnMapPacket.ParseChangeOnMap(p, attrs);
    } else if c == OpCodes.PlayerData {
      d := FixedPackets.ParseFixed(p, OpCodes.PlayerData, 20, PlayerData);
    } else if c == OpCodes.MarkCreature {
      d := FixedPackets.ParseFixed(p, OpCodes.MarkCreature, 5, MarkCreature);
    } else if c == OpCodes.CreatureHealth {
      d := FixedPackets.ParseFixed(p, OpCodes.CreatureHealth, 5, CreatureHealth);
    } else if !naive {
      return Emit(Some(Unhandled(c)), None);
    } else if |p.data| == 0 {
      return Stop(Crashed);
    } else {
      var v := ScanTalk(p, ret);
      return Emit(v, None);
    }
    match d
    case Decoded(ev, rest) => s := Emit(Some(ev), rest);
    case Failed(e) => s := Stop(if e == Io(EOF) then Closed else Error(e));
    case OutOfRange => s := Stop(Crashed);
  }

  /**
   * One pass of the outer loop: take the next input packet when none is
   * pending, then dispatch the packet. Returns the pass and the new input position.
   */
  method Pass(packets: seq<Packet>, i: nat, pkt: Option<Packet>, ret: Option<Event>, naive: bool, attrs: GameData.Catalog)
    returns (s: Step, j: nat)
    requires i <= |packets| && (pkt.None? ==> i < |packets|)
    ensures i <= j <= |packets| && (pkt.Some? ==> j == i) && (pkt.None? ==> j == i + 1)
    ensures s.Emit? && pkt.Some? ==> Size(s.next) < Size(pkt)
    ensures s.Stop? ==> RunFrom(packets, i, pkt, ret, naive, attrs) == Outcome([], s.end)
    ensures s.Emit? ==> RunFrom(packets, i, pkt, ret, naive, attrs) == Prepend([s.value], RunFrom(packets, j, s.next, s.value, naive, attrs))
  {
    var p := if pkt.Some? then pkt.value else packets[i];
    j := if pkt.Some? then i else i + 1;
    s := DispatchOne(p, ret, naive, attrs);
    PassOn(packets, j, p, ret, naive, attrs, s);
  }

  /** `ParsePackets`: the outer loop, emitting one value per pass until the input or a decoder ends it. */
  method ParsePackets(packets: seq<Packet>, naive: bool, attrs: GameData.Catalog)
    returns (emitted: seq<Option<Event>>, end: End)
    ensures Outcome(emitted, end) == Run(packets, naive, attrs)
  {
    var pkt: Option<Packet> := None;
    var ret: Option<Event> := None;
    var i := 0;
    emitted := [];
    assert Prepend([], Run(packets, naive, attrs)) == Run(packets, naive, attrs);
    while true
      invariant i <= |packets|
      invariant Run(packets, naive, attrs) == Prepend(emitted, RunFrom(packets, i, pkt, ret, naive, attrs))
      decreases |packets| - i, Size(pkt)
    {
      if pkt.None? && i == |packets| {
        Finish(Run(packets, naive, attrs), emitted, Closed);
        return emitted, Closed;
      }
      var s, j := Pass(packets, i, pkt, ret, naive, attrs);
      if s.Stop? {
        Finish(Run(packets, naive, attrs), emitted, s.end);
        return emitted, s.end;
      }
      Extend(Run(packets, naive, attrs), emitted, s.value, RunFrom(packets, j, s.next, s.value, naive, attrs));
      emitted, pkt, ret, i := emitted + [s.value], s.next, s.value, j;
    }
  }

  /** Emitting one more value moves it from the rest of the run to what was emitted. */
  lemma Extend(run: Outcome, emitted: seq<Option<Event>>, v: Option<Event>, o: Outcome)
    requires run == Prepend(emitted, Prepend([v], o))
    ensures run == Prepend(emitted + [v], o)
  {
    assert emitted + ([v] + o.emitted) == (emitted + [v]) + o.emitted;
  }

  /** A run that ends with nothing more to emit is what was emitted so far. */
  lemma Finish(run: Outcome, emitted: seq<Option<Event>>, end: End)
    requires run == Prepend(emitted, Outcome([], end))
    ensures run == Outcome(emitted, end)
  {
    assert emitted + [] == emitted;
  }

  /** How one pass on a pending packet continues the run. */
  lemma PassOn(packets: seq<Packet>, i: nat, p: Packet, ret: Option<Event>, naive: bool, attrs: GameData.Catalog, s: Step)
    requires i <= |packets| && s == Dispatch(p, ret, naive, attrs)
    ensures s.Stop? ==> RunFrom(packets, i, Some(p), ret, naive, attrs) == Outcome([], s.end)
    ensures s.Emit? ==> RunFrom(packets, i, Some(p), ret, naive, attrs) == Prepend([s.value], RunFrom(packets, i, s.next, s.value, naive, attrs))
  {
  }

  /** A byte other than the Talk opcode at every offset from k on. */
  predicate NoTalkFrom(p: Packet, k: nat)
  {
    forall j :: k <= j < |p.data| ==> p.data[j] != OpCodes.Talk
  }

  /** With no Talk opcode left to scan, the search leaves `ret` as it was. */
  lemma {:induction false} NoTalkKeepsRet(p: Packet, k: nat, ret: Option<Event>)
    requires 1 <= k <= |p.data| && NoTalkFrom(p, k)
    ensures NaiveScan(p, k, ret) == ret
    decreases |p.data| - k
  {
    if k < |p.data| {
      NoTalkKeepsRet(p, k + 1, ret);
    }
  }

  /** The last offset holding the Talk opcode decides what the search leaves, whatever came before it. */
  lemma {:induction false} LastTalkDecides(p: Packet, k: nat, j: nat, ret: Option<Event>)
    requires 1 <= k <= j < |p.data| && p.data[j] == OpCodes.Talk && NoTalkFrom(p, j + 1)
    ensures NaiveScan(p, k, ret) == TalkAt(p, j)
    decreases |p.data| - k
  {
    if k < j {
      LastTalkDecides(p, k + 1, j, if p.data[k] == OpCodes.Talk then TalkAt(p, k) else ret);
    } else {
      NoTalkKeepsRet(p, j + 1, TalkAt(p, j));
    }
  }

  /**
   * With the naive search on, a non-empty packet no decoder takes and with no
   * Talk opcode after its first byte emits the previous pass's value again.
   */
  lemma NaiveSearchRepeatsLastValue(packets: seq<Packet>, i: nat, ret: Option<Event>, attrs: GameData.Catalog)
    requires i < |packets| && OpCode(packets[i]) !in Dispatched
    requires |packets[i].data| > 0 && NoTalkFrom(packets[i], 1)
    ensures RunFrom(packets, i, None, ret, true, attrs) == Prepend([ret], RunFrom(packets, i + 1, None, ret, true, attrs))
  {
    NoTalkKeepsRet(packets[i], 1, ret);
  }

  /** With the search off, a packet no decoder takes emits its opcode and the next input packet follows. */
  lemma UnhandledEmitsOpCode(packets: seq<Packet>, i: nat, ret: Option<Event>, attrs: GameData.Catalog)
    requires i < |packets| && OpCode(packets[i]) !in Dispatched
    ensures var v := Some(Unhandled(OpCode(packets[i])));
      RunFrom(packets, i, None, ret, false, attrs) == Prepend([v], RunFrom(packets, i + 1, None, v, false, attrs))
  {
  }

  /**
   * With the search off and no packet a decoder takes, the run emits each
   * packet's opcode in input order and ends by closing the output.
   */
  lemma {:induction false} AllUnhandled(packets: seq<Packet>, i: nat, ret: Option<Event>, attrs: GameData.Catalog)
    requires i <= |packets| && forall j :: i <= j < |packets| ==> OpCode(packets[j]) !in Dispatched
    ensures var o := RunFrom(packets, i, None, ret, false, attrs);
      o.end == Closed && |o.emitted| == |packets| - i
      && forall j :: 0 <= j < |o.emitted| ==> o.emitted[j] == Some(Unhandled(OpCode(packets[i + j])))
    decreases |packets| - i
  {
    if i < |packets| {
      var v := Some(Unhandled(OpCode(packets[i])));
      UnhandledEmitsOpCode(packets, i, ret, attrs);
      AllUnhandled(packets, i + 1, v, attrs);
    }
  }

  /**
   * A failed decode ends the run at that packet: io.EOF closes the output
   * as a clean end would, any other error is reported, and nothing of the
   * packet or of any later one is emitted.
   */
  lemma DecoderFailureEndsRun(packets: seq<Packet>, i: nat, p: Packet, e: ParseError,
                              ret: Option<Event>, naive: bool, attrs: GameData.Catalog)
    requires i <= |packets| && Decoder(p, attrs) == Some(Failed(e))
    ensures RunFrom(packets, i, Some(p), ret, naive, attrs) == Outcome([], if e == Io(EOF) then Closed else Error(e))
  {
  }

  /** A Talk packet of at most five bytes ends before its name length, so its decode hits io.EOF. */
  lemma ShortTalkHitsEof(p: Packet, attrs: GameData.Catalog)
    requires OpCode(p) == OpCodes.Talk && |p.data| <= 5
    ensures Decoder(p, attrs) == Some(Failed(Io(EOF)))
  {
    assert StrAt(p.data, 5) == Err(Io(EOF));
  }

  /**
   * A Talk packet taken from the input that stops at or before the end of
   * its channel statement id closes the output cleanly; nothing of it or of
   * any later packet is emitted.
   */
  lemma TalkEofClosesOutput(packets: seq<Packet>, i: nat, ret: Option<Event>, naive: bool, attrs: GameData.Catalog)
    requires i < |packets| && OpCode(packets[i]) == OpCodes.Talk && |packets[i].data| <= 5
    ensures RunFrom(packets, i, None, ret, naive, attrs) == Outcome([], Closed)
  {
    ShortTalkHitsEof(packets[i], attrs);
    DecoderFailureEndsRun(packets, i + 1, packets[i], Io(EOF), ret, naive, attrs);
  }

  /** A decoder error other than io.EOF on a packet taken from the input ends the run with that error. */
  lemma DecoderErrorReported(packets: seq<Packet>, i: nat, e: ParseError, ret: Option<Event>, naive: bool, attrs: GameData.Catalog)
    requires i < |packets| && Decoder(packets[i], attrs) == Some(Failed(e)) && e != Io(EOF)
    ensures RunFrom(packets, i, None, ret, naive, attrs) == Outcome([], Error(e))
  {
    DecoderFailureEndsRun(packets, i + 1, packets[i], e, ret, naive, attrs);
  }

  /** For instance, a ChangeOnMap packet whose thing id is 0 ends the run with the invalid-id error. */
  lemma InvalidThingReported(packets: seq<Packet>, i: nat, ret: Option<Event>, naive: bool, attrs: GameData.Catalog)
    requires i < |packets| && OpCode(packets[i]) == OpCodes.ChangeOnMap
    requires |packets[i].data| >= 9 && U16At(packets[i].data, 7) == 0
    ensures RunFrom(packets, i, None, ret, naive, attrs) == Outcome([], Error(InvalidItemId))
  {
    DecoderErrorReported(packets, i, InvalidItemId, ret, naive, attrs);
  }
}

/**
 * The capture-file frame reader (loader/cam.go). A capture is a 12-byte
 * header (4-byte version, 8-byte checksum, both skipped unread) and then
 * frames of [u64 LE tick][u16 LE length][payload]. Every frame becomes a
 * packet whose GlobalOffset is the file position of its payload and whose
 * TimeOffset is its tick minus the first frame's tick, in wrapping uint64
 * milliseconds. The stream ends cleanly only on io.EOF, that is when a read
 * finds no byte at all; a read that finds some but not all of its bytes is
 * an error.
 */
module Loader {
  import opened Wrappers
  import opened Bytes
  import opened Network
  import ByteReader

  const HeaderSize: nat := 4 + 8

  datatype End = Clean | Failed(error: IoError)
  datatype Capture = Capture(packets: seq<Packet>, end: End)

  /** The deferred handler's rule: io.EOF closes the stream, anything else is reported. */
  function EndOf(e: IoError): End
  {
    if e == EOF then Clean else Failed(e)
  }

  function Prepend(ps: seq<Packet>, c: Capture): Capture
  {
    Capture(ps + c.packets, c.end)
  }

  /**
   * One loop iteration at file position pos: the packet and the position of
   * the next frame, or the error that ends the stream.
   */
  function FrameAt(file: seq<byte>, pos: nat, start: u64): (r: Result<(Packet, nat), IoError>)
    ensures r.Ok? ==> pos + 10 <= r.value.1 <= |file|
    ensures r.Ok? ==> r.value.0.globalOffset == pos + 10 && r.value.0.localOffset == 0
    ensures r.Ok? ==> r.value.1 == pos + 10 + |r.value.0.data|
    ensures r.Ok? ==> r.value.0.data == file[pos + 10..r.value.1]
    ensures r.Err? ==> r.error != NegativePosition
  {
    match ReadAt(file, pos, 8)
    case Err(e) => Err(e)
    case Ok(tick) =>
      match ReadAt(file, pos + 8, 2)
      case Err(e) => Err(e)
      case Ok(lenBytes) =>
        var cur := pos + 8 + 2;
        var len := U16At(lenBytes, 0);
        match ReadAt(file, cur, len)
        case Err(e) => Err(e)
        case Ok(payload) =>
          Ok((Packet(cur, 0, WrapSub64(U64At(tick, 0), start), payload), cur + len))
  }

  /** The frames read from file position pos on, given the start tick. */
  function FramesFrom(file: seq<byte>, pos: nat, start: u64): Capture
    requires pos <= |file|
    decreases |file| - pos
  {
    match FrameAt(file, pos, start)
    case Err(e) => Capture([], EndOf(e))
    case Ok((pkt, next)) => Prepend([pkt], FramesFrom(file, next, start))
  }

  /** The whole capture: skip the header, peek at the first tick, read frames. */
  function ReadCapture(file: seq<byte>): Capture
  {
    match ReadAt(file, HeaderSize, 8)
    case Err(e) => Capture([], EndOf(e))
    case Ok(first) => FramesFrom(file, HeaderSize, U64At(first, 0))
  }

  /** The loop body of ReadFile: one frame read from the file's cursor. */
  method ReadFrame(f: ByteReader.Reader, start: u64) returns (r: Result<(Packet, nat), IoError>)
    modifies f
    ensures r == FrameAt(f.data, old(f.pos), start)
    ensures r.Ok? ==> f.pos == r.value.1
  {
    var tick := f.ReadFull(8);
    if tick.Err? {
      return Err(tick.error);
    }
    var pktLen := f.ReadU16();
    if pktLen.Err? {
      return Err(pktLen.error);
    }
    var cur := f.pos;
    var payload := f.ReadFull(pktLen.value);
    if payload.Err? {
      return Err(payload.error);
    }
    return Ok((Packet(cur, 0, WrapSub64(U64At(tick.value, 0), start), payload.value), f.pos));
  }

  /** ReadFile's goroutine, with the file as a byte sequence and the channel as the returned sequence. */
  method ReadFile(file: seq<byte>) returns (packets: seq<Packet>, end: End)
    ensures Capture(packets, end) == ReadCapture(file)
  {
    packets := [];
    var f := new ByteReader.Reader(file);
    var _ := f.Seek(HeaderSize);
    var startTick := f.ReadFull(8);
    if startTick.Err? {
      return [], EndOf(startTick.error);
    }
    var start := U64At(startTick.value, 0);
    var _ := f.Seek(-8);
    while true
      invariant f.data == file && f.pos <= |file|
      invariant ReadCapture(file) == Prepend(packets, FramesFrom(file, f.pos, start))
      decreases |file| - f.pos
    {
      ghost var pos := f.pos;
      var frame := ReadFrame(f, start);
      FramesStep(file, pos, start);
      if frame.Err? {
        assert packets + [] == packets;
        return packets, EndOf(frame.error);
      }
      PrependTwice(packets, [frame.value.0], FramesFrom(file, f.pos, start));
      packets := packets + [frame.value.0];
    }
  }

  /** FramesFrom at pos, one frame unfolded. */
  lemma FramesStep(file: seq<byte>, pos: nat, start: u64)
    requires pos <= |file|
    ensures FrameAt(file, pos, start).Err? ==> FramesFrom(file, pos, start) == Capture([], EndOf(FrameAt(file, pos, start).error))
    ensures FrameAt(file, pos, start).Ok? ==> (FramesFrom(file, pos, start)
      == Prepend([FrameAt(file, pos, start).value.0], FramesFrom(file, FrameAt(file, pos, start).value.1, start)))
  {
  }

  lemma PrependTwice(xs: seq<Packet>, ys: seq<Packet>, c: Capture)
    ensures Prepend(xs, Prepend(ys, c)) == Prepend(xs + ys, c)
  {
    assert xs + (ys + c.packets) == (xs + ys) + c.packets;
  }

  type Tick = s: seq<byte> | |s| == 8 witness [0, 0, 0, 0, 0, 0, 0, 0]
  type Payload = s: seq<byte> | |s| < 0x1_0000

  /** One frame as it lies in the file. */
  datatype Frame = Frame(tick: Tick, payload: Payload)

  function EncodeFrame(fr: Frame): (s: seq<byte>)
    ensures |s| == 10 + |fr.payload|
  {
    fr.tick + LE16(|fr.payload|) + fr.payload
  }

  function EncodeFrames(frames: seq<Frame>): seq<byte>
  {
    if frames == [] then [] else EncodeFrame(frames[0]) + EncodeFrames(frames[1..])
  }

  /** The packet a frame should become when it sits at file position pos. */
  function FramePacket(fr: Frame, pos: nat, start: u64): Packet
  {
    Packet(pos + 10, 0, WrapSub64(U64At(fr.tick, 0), start), fr.payload)
  }

  /** The packets the frames should become when the first one sits at file position pos. */
  function Expected(frames: seq<Frame>, pos: nat, start: u64): seq<Packet>
  {
    if frames == [] then []
    else [FramePacket(frames[0], pos, start)] + Expected(frames[1..], pos + 10 + |frames[0].payload|, start)
  }

  /** Where the frames end when the first one sits at file position pos. */
  function EndPos(frames: seq<Frame>, pos: nat): nat
  {
    if frames == [] then pos else EndPos(frames[1..], pos + 10 + |frames[0].payload|)
  }

  /** The bytes of one frame lie at pos: its tick, its payload's length and its payload. */
  predicate FrameBytesAt(file: seq<byte>, pos: nat, fr: Frame)
  {
    && pos + 10 + |fr.payload| <= |file|
    && file[pos..pos + 8] == fr.tick
    && file[pos + 8..pos + 10] == LE16(|fr.payload|)
    && file[pos + 10..pos + 10 + |fr.payload|] == fr.payload
  }

  /** The frames' bytes lie one after the other from pos. */
  predicate LaidOut(file: seq<byte>, pos: nat, frames: seq<Frame>)
    decreases |frames|
  {
    frames == [] || (FrameBytesAt(file, pos, frames[0]) && LaidOut(file, pos + 10 + |frames[0].payload|, frames[1..]))
  }

  /** A frame written after pre has its bytes there. */
  lemma FrameBytesEncoded(file: seq<byte>, pre: seq<byte>, fr: Frame, rest: seq<byte>)
    requires file == pre + EncodeFrame(fr) + rest
    ensures FrameBytesAt(file, |pre|, fr)
  {
    var pos, len := |pre|, |fr.payload|;
    assert file == pre + fr.tick + LE16(len) + fr.payload + rest;
    assert file[pos..pos + 8] == fr.tick;
    assert file[pos + 8..pos + 10] == LE16(len);
    assert file[pos + 10..pos + 10 + len] == fr.payload;
  }

  /** Encoded frames are laid out where they were written, and end where the bytes after them begin. */
  lemma {:induction false} EncodedIsLaidOut(file: seq<byte>, pre: seq<byte>, frames: seq<Frame>, tail: seq<byte>)
    requires file == pre + EncodeFrames(frames) + tail
    ensures LaidOut(file, |pre|, frames) && EndPos(frames, |pre|) == |file| - |tail|
    decreases |frames|
  {
    if frames != [] {
      var fr, more := frames[0], frames[1..];
      var pre' := pre + EncodeFrame(fr);
      assert file == pre + EncodeFrame(fr) + (EncodeFrames(more) + tail) && file == pre' + EncodeFrames(more) + tail by {
        assert EncodeFrames(frames) == EncodeFrame(fr) + EncodeFrames(more);
      }
      assert FrameBytesAt(file, |pre|, fr) by {
        FrameBytesEncoded(file, pre, fr, EncodeFrames(more) + tail);
      }
      assert LaidOut(file, |pre'|, more) && EndPos(more, |pre'|) == |file| - |tail| by {
        EncodedIsLaidOut(file, pre', more, tail);
      }
      LaidOutCons(file, |pre|, |pre'|, frames);
    }
  }

  /** One frame's bytes at pos, followed by frames laid out where it ends, are frames laid out from pos. */
  lemma LaidOutCons(file: seq<byte>, pos: nat, next: nat, frames: seq<Frame>)
    requires frames != [] && next == pos + 10 + |frames[0].payload|
    requires FrameBytesAt(file, pos, frames[0]) && LaidOut(file, next, frames[1..])
    ensures LaidOut(file, pos, frames) && EndPos(frames, pos) == EndPos(frames[1..], next)
  {
  }

  /** A frame whose bytes lie at pos reads back as its packet, and the next frame starts right after it. */
  lemma FrameAtBytes(file: seq<byte>, pos: nat, fr: Frame, start: u64)
    requires FrameBytesAt(file, pos, fr)
    ensures FrameAt(file, pos, start) == Ok((FramePacket(fr, pos, start), pos + 10 + |fr.payload|))
  {
  }

  /**
   * Frames in file order: frames laid out from pos decode to their packets,
   * in order, followed by whatever the bytes after the last of them decode to.
   */
  lemma {:induction false} FramesThenTail(file: seq<byte>, pos: nat, frames: seq<Frame>, start: u64)
    requires pos <= |file| && LaidOut(file, pos, frames)
    ensures EndPos(frames, pos) <= |file|
    ensures FramesFrom(file, pos, start) == Prepend(Expected(frames, pos, start), FramesFrom(file, EndPos(frames, pos), start))
    decreases |frames|
  {
    if frames == [] {
      assert Expected(frames, pos, start) == [];
      assert [] + FramesFrom(file, pos, start).packets == FramesFrom(file, pos, start).packets;
    } else {
      var fr, more := frames[0], frames[1..];
      var next := pos + 10 + |fr.payload|;
      var p := FramePacket(fr, pos, start);
      assert FrameBytesAt(file, pos, fr) && LaidOut(file, next, more) && EndPos(frames, pos) == EndPos(more, next);
      assert Expected(frames, pos, start) == [p] + Expected(more, next, start);
      assert FrameAt(file, pos, start) == Ok((p, next)) by {
        FrameAtBytes(file, pos, fr, start);
      }
      FramesThenTail(file, next, more, start);
      var after := FramesFrom(file, EndPos(frames, pos), start);
      assert FramesFrom(file, pos, start) == Prepend([p], FramesFrom(file, next, start)) by {
        FramesStep(file, pos, start);
      }
      PrependTwice([p], Expected(more, next, start), after);
    }
  }

  /** How the stream ends when only |file| - pos bytes remain at a frame boundary. */
  lemma TailEnd(file: seq<byte>, pos: nat, start: u64)
    requires pos <= |file|
    ensures |file| - pos == 0 ==> FramesFrom(file, pos, start) == Capture([], Clean)
    ensures 0 < |file| - pos < 8 ==> FramesFrom(file, pos, start) == Capture([], Failed(UnexpectedEOF))
    ensures |file| - pos == 8 ==> FramesFrom(file, pos, start) == Capture([], Clean)
    ensures |file| - pos == 9 ==> FramesFrom(file, pos, start) == Capture([], Failed(UnexpectedEOF))
  {
  }

  /**
   * Round trip: a header followed by frames reads back as one packet per
   * frame, in order, with the payload's file position, the tick relative to
   * the first frame's, and a clean end. A zero-length payload is a packet with
   * empty data.
   */
  lemma CaptureRoundTrip(header: seq<byte>, frames: seq<Frame>)
    requires |header| == HeaderSize && frames != []
    ensures ReadCapture(header + EncodeFrames(frames))
      == Capture(Expected(frames, HeaderSize, U64At(frames[0].tick, 0)), Clean)
  {
    assert header + EncodeFrames(frames) == header + EncodeFrames(frames) + [];
    TrailingBytes(header, frames, []);
  }

  /**
   * Whatever follows the last whole frame decides how the stream ends, after
   * every whole frame has been emitted: nothing is a clean end, one to seven
   * bytes (a partial tick) are ErrUnexpectedEOF, a tick with no length after
   * it is io.EOF and so a clean end again, and a tick with half a length is
   * ErrUnexpectedEOF.
   */
  lemma TrailingBytes(header: seq<byte>, frames: seq<Frame>, tail: seq<byte>)
    requires |header| == HeaderSize && frames != []
    ensures var c := ReadCapture(header + EncodeFrames(frames) + tail);
      var exp := Expected(frames, HeaderSize, U64At(frames[0].tick, 0));
      && (|tail| == 0 ==> c == Capture(exp, Clean))
      && (0 < |tail| < 8 ==> c == Capture(exp, Failed(UnexpectedEOF)))
      && (|tail| == 8 ==> c == Capture(exp, Clean))
      && (|tail| == 9 ==> c == Capture(exp, Failed(UnexpectedEOF)))
  {
    var file := header + EncodeFrames(frames) + tail;
    EncodedIsLaidOut(file, header, frames, tail);
    LaidOutCapture(file, frames, |tail|);
  }

  /** TrailingBytes for any file whose frames are laid out from the end of the header up to its last n bytes. */
  lemma LaidOutCapture(file: seq<byte>, frames: seq<Frame>, n: nat)
    requires frames != [] && n <= |file| && HeaderSize <= |file|
    requires LaidOut(file, HeaderSize, frames) && EndPos(frames, HeaderSize) == |file| - n
    ensures var c := ReadCapture(file);
      var exp := Expected(frames, HeaderSize, U64At(frames[0].tick, 0));
      && (n == 0 ==> c == Capture(exp, Clean))
      && (0 < n < 8 ==> c == Capture(exp, Failed(UnexpectedEOF)))
      && (n == 8 ==> c == Capture(exp, Clean))
      && (n == 9 ==> c == Capture(exp, Failed(UnexpectedEOF)))
  {
    var start := U64At(frames[0].tick, 0);
    CaptureIsFrames(file, frames);
    CaptureEnds(file, start, Expected(frames, HeaderSize, start), EndPos(frames, HeaderSize), n);
  }

  /** Laid-out frames after the header are read back one by one, and the capture continues where they end. */
  lemma CaptureIsFrames(file: seq<byte>, frames: seq<Frame>)
    requires frames != [] && HeaderSize <= |file| && LaidOut(file, HeaderSize, frames)
    ensures EndPos(frames, HeaderSize) <= |file|
    ensures var start := U64At(frames[0].tick, 0);
      ReadCapture(file) == Prepend(Expected(frames, HeaderSize, start), FramesFrom(file, EndPos(frames, HeaderSize), start))
  {
    var start := U64At(frames[0].tick, 0);
    assert FrameBytesAt(file, HeaderSize, frames[0]);
    CaptureStart(file, frames[0].tick);
    FramesThenTail(file, HeaderSize, frames, start);
  }

  /** A capture whose first frame has tick first reads its frames from just after the header, relative to that tick. */
  lemma CaptureStart(file: seq<byte>, first: Tick)
    requires HeaderSize + 8 <= |file| && file[HeaderSize..HeaderSize + 8] == first
    ensures ReadCapture(file) == FramesFrom(file, HeaderSize, U64At(first, 0))
  {
  }

  /** How the capture ends once the frames before the last n bytes are known to decode to exp. */
  lemma CaptureEnds(file: seq<byte>, start: u64, exp: seq<Packet>, pos: nat, n: nat)
    requires pos + n == |file| && ReadCapture(file) == Prepend(exp, FramesFrom(file, pos, start))
    ensures n == 0 ==> ReadCapture(file) == Capture(exp, Clean)
    ensures 0 < n < 8 ==> ReadCapture(file) == Capture(exp, Failed(UnexpectedEOF))
    ensures n == 8 ==> ReadCapture(file) == Capture(exp, Clean)
    ensures n == 9 ==> ReadCapture(file) == Capture(exp, Failed(UnexpectedEOF))
  {
    assert exp + [] == exp;
    TailEnd(file, pos, start);
  }

  /** The first packet's time offset is 0: the start tick is the first frame's own tick. */
  lemma FirstTimeOffsetIsZero(file: seq<byte>)
    requires ReadCapture(file).packets != []
    ensures ReadCapture(file).packets[0].timeOffset == 0
    ensures ReadCapture(file).packets[0].globalOffset == HeaderSize + 10
  {
  }

  lemma SliceOfSuffix(s: seq<byte>, pos: nat, i: nat, j: nat)
    requires pos <= |s| && i <= j <= |s| - pos
    ensures s[pos..][i..j] == s[pos + i..pos + j]
  {
  }

  /** The header is never inspected: captures that differ only there read the same. */
  lemma HeaderIgnored(f1: seq<byte>, f2: seq<byte>)
    requires |f1| == |f2| && |f1| >= HeaderSize && f1[HeaderSize..] == f2[HeaderSize..]
    ensures ReadCapture(f1) == ReadCapture(f2)
  {
    if HeaderSize + 8 <= |f1| {
      SliceOfSuffix(f1, HeaderSize, 0, 8);
      SliceOfSuffix(f2, HeaderSize, 0, 8);
      FramesFromDependsOnSuffix(f1, f2, HeaderSize, U64At(f1[HeaderSize..HeaderSize + 8], 0));
    }
  }

  lemma FrameAtDependsOnSuffix(f1: seq<byte>, f2: seq<byte>, pos: nat, start: u64)
    requires |f1| == |f2| && pos <= |f1| && f1[pos..] == f2[pos..]
    ensures FrameAt(f1, pos, start) == FrameAt(f2, pos, start)
  {
    if pos + 10 <= |f1| {
      SliceOfSuffix(f1, pos, 0, 8);
      SliceOfSuffix(f2, pos, 0, 8);
      SliceOfSuffix(f1, pos, 8, 10);
      SliceOfSuffix(f2, pos, 8, 10);
      var len: nat := U16At(f1[pos + 8..pos + 10], 0);
      if pos + 10 + len <= |f1| {
        SliceOfSuffix(f1, pos, 10, 10 + len);
        SliceOfSuffix(f2, pos, 10, 10 + len);
      }
    }
  }

  lemma {:induction false} FramesFromDependsOnSuffix(f1: seq<byte>, f2: seq<byte>, pos: nat, start: u64)
    requires |f1| == |f2| && pos <= |f1| && f1[pos..] == f2[pos..]
    ensures FramesFrom(f1, pos, start) == FramesFrom(f2, pos, start)
    decreases |f1| - pos
  {
    FrameAtDependsOnSuffix(f1, f2, pos, start);
    var r := FrameAt(f1, pos, start);
    if r.Ok? {
      var next := r.value.1;
      assert f1[next..] == f2[next..] by {
        assert f1[next..] == f1[pos..][next - pos..];
        assert f2[next..] == f2[pos..][next - pos..];
      }
      FramesFromDependsOnSuffix(f1, f2, next, start);
    }
  }
}

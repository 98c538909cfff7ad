/**
 * Little-endian integers over byte sequences and the semantics of a
 * `binary.Read` / `io.ReadFull` of a fixed number of bytes at a position.
 * Both the capture file (an os.File) and a packet's bytes.Reader behave the
 * same way: a read that finds no byte at all fails with EOF, a read that finds
 * some but not all bytes fails with ErrUnexpectedEOF, and an empty read
 * always succeeds.
 */
module Bytes {
  import opened Wrappers

  type byte = x: int | 0 <= x < 0x100
  type u16 = x: int | 0 <= x < 0x1_0000
  type u64 = x: int | 0 <= x < 0x1_0000_0000_0000_0000

  /** Little-endian uint16 at index i. */
  function U16At(s: seq<byte>, i: nat): u16
    requires i + 2 <= |s|
  {
    s[i] as int + 0x100 * s[i + 1] as int
  }

  /** Little-endian uint64 at index i. */
  function U64At(s: seq<byte>, i: nat): u64
    requires i + 8 <= |s|
  {
    var lo: int := s[i] as int + 0x100 * (s[i + 1] as int + 0x100 * (s[i + 2] as int + 0x100 * s[i + 3] as int));
    var hi: int := s[i + 4] as int + 0x100 * (s[i + 5] as int + 0x100 * (s[i + 6] as int + 0x100 * s[i + 7] as int));
    lo + 0x1_0000_0000 * hi
  }

  /** The two bytes that `binary.Write` would produce for a uint16. */
  function LE16(v: u16): (r: seq<byte>)
    ensures |r| == 2 && U16At(r, 0) == v
  {
    [v % 0x100, v / 0x100]
  }

  /** uint64 subtraction, wrapping modulo 2^64. */
  function WrapSub64(a: u64, b: u64): (r: u64)
    ensures a >= b ==> r == a - b
    ensures a < b ==> r == a - b + 0x1_0000_0000_0000_0000
  {
    (a - b) % 0x1_0000_0000_0000_0000
  }

  /** io.EOF, io.ErrUnexpectedEOF, and the error a Seek to a negative position returns. */
  datatype IoError = EOF | UnexpectedEOF | NegativePosition

  /** Reading k bytes at pos: what io.ReadFull returns. */
  function ReadAt(s: seq<byte>, pos: nat, k: nat): (r: Result<seq<byte>, IoError>)
    ensures r.Ok? <==> k == 0 || pos + k <= |s|
    ensures r.Ok? ==> (k == 0 && r.value == []) || (pos + k <= |s| && r.value == s[pos..pos + k])
    ensures r.Err? ==> r.error == (if pos >= |s| then EOF else UnexpectedEOF)
  {
    if k == 0 then Ok([])
    else if pos >= |s| then Err(EOF)
    else if pos + k > |s| then Err(UnexpectedEOF)
    else Ok(s[pos..pos + k])
  }

  /** Where the cursor stands after that read: a short read consumes what there is. */
  function PosAfterRead(s: seq<byte>, pos: nat, k: nat): (p: nat)
    ensures ReadAt(s, pos, k).Ok? ==> p == pos + k
    ensures ReadAt(s, pos, k).Err? ==> p == (if pos < |s| then |s| else pos)
  {
    if pos + k <= |s| then pos + k else if pos < |s| then |s| else pos
  }
}

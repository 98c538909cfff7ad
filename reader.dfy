/**
 * A cursor over an in-memory byte sequence with the semantics of Go's
 * bytes.Reader (and, for the reads and relative seeks used here, of an
 * os.File): a read takes what is there and fails with EOF or
 * ErrUnexpectedEOF when short; a relative seek may go past the end and only
 * fails when the result would be negative.
 */
module ByteReader {
  import opened Wrappers
  import opened Bytes

  class Reader {
    const data: seq<byte>
    var pos: nat

    constructor (data: seq<byte>)
      ensures this.data == data && pos == 0
    {
      this.data := data;
      pos := 0;
    }

    /** io.ReadFull(r, buf) with len(buf) == k, or binary.Read of a k-byte value. */
    method ReadFull(k: nat) returns (r: Result<seq<byte>, IoError>)
      modifies this
      ensures r == ReadAt(data, old(pos), k)
      ensures pos == PosAfterRead(data, old(pos), k)
    {
      if k == 0 {
        return Ok([]);
      }
      if pos >= |data| {
        return Err(EOF);
      }
      var n := if pos + k <= |data| then k else |data| - pos;
      var chunk := data[pos..pos + n];
      pos := pos + n;
      if n < k {
        return Err(UnexpectedEOF);
      }
      return Ok(chunk);
    }

    /** binary.Read of a little-endian uint16. */
    method ReadU16() returns (r: Result<u16, IoError>)
      modifies this
      ensures r.Ok? <==> ReadAt(data, old(pos), 2).Ok?
      ensures r.Ok? ==> r.value == U16At(data, old(pos))
      ensures r.Err? ==> r.error == ReadAt(data, old(pos), 2).error
      ensures pos == PosAfterRead(data, old(pos), 2)
    {
      var b := ReadFull(2);
      if b.Err? {
        return Err(b.error);
      }
      return Ok(U16At(b.value, 0));
    }

    /** binary.Read of a single byte: it is there, or the read fails with EOF. */
    method ReadByte() returns (r: Result<byte, IoError>)
      modifies this
      ensures r.Ok? <==> old(pos) < |data|
      ensures r.Ok? ==> r.value == data[old(pos)] && pos == old(pos) + 1
      ensures r.Err? ==> r.error == EOF && pos == old(pos)
    {
      var b := ReadFull(1);
      if b.Err? {
        return Err(b.error);
      }
      return Ok(b.value[0]);
    }

    /** Seek(offset, io.SeekCurrent). */
    method Seek(offset: int) returns (r: Result<nat, IoError>)
      modifies this
      ensures old(pos) + offset >= 0 ==> r == Ok(old(pos) + offset) && pos == old(pos) + offset
      ensures old(pos) + offset < 0 ==> r == Err(NegativePosition) && pos == old(pos)
    {
      if pos + offset < 0 {
        return Err(NegativePosition);
      }
      pos := pos + offset;
      return Ok(pos);
    }
  }
}

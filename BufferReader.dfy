/** The cursor reader over a received ArrayBuffer (lidar-viewer buffer-reader.ts). */
module BufferReaderModel {
  import opened Common
  import opened JsNumbers

  /** DataView and Uint8Array report an access outside the buffer with a RangeError. */
  datatype ReadError = RangeError

  class BufferReader {
    /** The bytes of the wrapped ArrayBuffer; the reader never writes them. */
    const buf: seq<byte>
    /** Position of the next byte to read. */
    var offset: nat

    ghost predicate Valid()
      reads this
    {
      offset <= |buf|
    }

    function Remaining(): (n: int)
      reads this
      ensures Valid() ==> 0 <= n <= |buf|
    {
      |buf| - offset
    }

    /** A new reader starts at the first byte, so everything remains to be read. */
    constructor (buf: seq<byte>)
      ensures this.buf == buf && offset == 0
      ensures Valid() && Remaining() == |buf|
    {
      this.buf := buf;
      offset := 0;
    }

    /** Reads the next four bytes as an unsigned big-endian integer. The signed
        `|` chain is brought back into [0, 2^32) by `>>> 0`. When fewer than four
        bytes remain, a getUint8 call throws before the offset moves. */
    method ReadUint32BE() returns (r: Result<int, ReadError>)
      requires Valid()
      modifies this
      ensures Valid()
      ensures old(Remaining()) >= 4 ==>
        && r == Ok(BigEndianU32(buf[old(offset)], buf[old(offset) + 1], buf[old(offset) + 2], buf[old(offset) + 3]))
        && offset == old(offset) + 4
        && Remaining() == old(Remaining()) - 4
      ensures old(Remaining()) < 4 ==> r == Err(RangeError) && offset == old(offset)
      ensures r.Ok? ==> 0 <= r.value < TWO_32
    {
      if Remaining() < 4 {
        return Err(RangeError);
      }
      var v := SignedOr4(buf[offset], buf[offset + 1], buf[offset + 2], buf[offset + 3]);
      offset := offset + 4;
      UnsignedShiftRestores(buf[offset - 4], buf[offset - 3], buf[offset - 2], buf[offset - 1]);
      r := Ok(ToUint32(v));
    }

    /** Returns the `len` bytes at the cursor (a view in the source) and moves past them.
        A negative length, or one reaching past the end, makes the Uint8Array
        constructor throw before the offset moves. */
    method ReadBytes(len: int) returns (r: Result<seq<byte>, ReadError>)
      requires Valid()
      modifies this
      ensures Valid()
      ensures 0 <= len <= old(Remaining()) ==>
        && r == Ok(buf[old(offset)..old(offset) + len])
        && offset == old(offset) + len
        && Remaining() == old(Remaining()) - len
      ensures !(0 <= len <= old(Remaining())) ==> r == Err(RangeError) && offset == old(offset)
    {
      if len < 0 || len > Remaining() {
        return Err(RangeError);
      }
      r := Ok(buf[offset..offset + len]);
      offset := offset + len;
    }
  }
}

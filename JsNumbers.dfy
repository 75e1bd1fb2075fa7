/** ECMAScript integer conversions, byte-order packing and `slice` as the
    decoders in the viewer apps use them. */
module JsNumbers {
  import opened Common

  const TWO_32: int := 0x1_0000_0000
  const TWO_31: int := 0x8000_0000

  /** ToUint32 of an integral number: the representative of x modulo 2^32 in [0, 2^32). */
  function ToUint32(x: int): (r: int)
    ensures 0 <= r < TWO_32
    ensures (x - r) % TWO_32 == 0
  {
    x % TWO_32
  }

  /** ToInt32 of an integral number: the representative of x modulo 2^32 in [-2^31, 2^31),
      which is what every bitwise operator (`<<`, `|`) produces. */
  function ToInt32(x: int): (r: int)
    ensures -TWO_31 <= r < TWO_31
    ensures (x - r) % TWO_32 == 0
  {
    var u := x % TWO_32;
    if u >= TWO_31 then u - TWO_32 else u
  }

  /** The unsigned big-endian (network order) value of four bytes. */
  function BigEndianU32(b0: byte, b1: byte, b2: byte, b3: byte): (v: int)
    ensures 0 <= v < TWO_32
    ensures v / 0x100_0000 == b0 && v % 0x100 == b3
  {
    b0 * 0x100_0000 + b1 * 0x1_0000 + b2 * 0x100 + b3
  }

  /** The unsigned little-endian value of four bytes (DataView.getUint32(i, true)). */
  function LittleEndianU32(b0: byte, b1: byte, b2: byte, b3: byte): (v: int)
    ensures 0 <= v < TWO_32
    ensures v % 0x100 == b0 && v / 0x100_0000 == b3
  {
    b0 + b1 * 0x100 + b2 * 0x1_0000 + b3 * 0x100_0000
  }

  /** `(b0 << 24) | (b1 << 16) | (b2 << 8) | b3` on numbers in JavaScript.  The
      four shifted bytes occupy disjoint bit ranges, so the `|` chain is their sum,
      reinterpreted as a signed 32-bit integer. */
  function SignedOr4(b0: byte, b1: byte, b2: byte, b3: byte): int {
    ToInt32(BigEndianU32(b0, b1, b2, b3))
  }

  /** The signed form agrees with the unsigned value exactly when the top bit is clear,
      and is negative otherwise. */
  lemma SignedOr4Sign(b0: byte, b1: byte, b2: byte, b3: byte)
    ensures b0 < 128 ==> SignedOr4(b0, b1, b2, b3) == BigEndianU32(b0, b1, b2, b3)
    ensures b0 >= 128 ==> SignedOr4(b0, b1, b2, b3) == BigEndianU32(b0, b1, b2, b3) - TWO_32 < 0
  {
  }

  /** `>>> 0` undoes the sign: applying ToUint32 to the signed form gives the
      unsigned big-endian value for every input. */
  lemma UnsignedShiftRestores(b0: byte, b1: byte, b2: byte, b3: byte)
    ensures ToUint32(SignedOr4(b0, b1, b2, b3)) == BigEndianU32(b0, b1, b2, b3)
  {
    SignedOr4Sign(b0, b1, b2, b3);
  }

  /** The four big-endian bytes of a 32-bit unsigned length. */
  function BigEndianBytes(n: int): (bs: seq<byte>)
    requires 0 <= n < TWO_32
    ensures |bs| == 4
  {
    [n / 0x100_0000, (n / 0x1_0000) % 0x100, (n / 0x100) % 0x100, n % 0x100]
  }

  /** The four little-endian bytes of a 32-bit unsigned length. */
  function LittleEndianBytes(n: int): (bs: seq<byte>)
    requires 0 <= n < TWO_32
    ensures |bs| == 4
  {
    [n % 0x100, (n / 0x100) % 0x100, (n / 0x1_0000) % 0x100, n / 0x100_0000]
  }

  lemma BigEndianRoundTrip(n: int)
    requires 0 <= n < TWO_32
    ensures var bs := BigEndianBytes(n); BigEndianU32(bs[0], bs[1], bs[2], bs[3]) == n
  {
    var q1 := n / 0x100;
    var q2 := q1 / 0x100;
    assert n / 0x1_0000 == q2;
    assert n / 0x100_0000 == q2 / 0x100;
    assert n == q1 * 0x100 + n % 0x100;
    assert q1 == q2 * 0x100 + q1 % 0x100;
    assert q2 == (q2 / 0x100) * 0x100 + q2 % 0x100;
  }

  lemma LittleEndianRoundTrip(n: int)
    requires 0 <= n < TWO_32
    ensures var bs := LittleEndianBytes(n); LittleEndianU32(bs[0], bs[1], bs[2], bs[3]) == n
  {
    BigEndianRoundTrip(n);
  }

  /** Four bytes survive decoding and re-encoding. */
  lemma BigEndianBytesOfValue(b0: byte, b1: byte, b2: byte, b3: byte)
    ensures BigEndianBytes(BigEndianU32(b0, b1, b2, b3)) == [b0, b1, b2, b3]
  {
    var n := BigEndianU32(b0, b1, b2, b3);
    assert n / 0x100 == b0 * 0x1_0000 + b1 * 0x100 + b2;
    assert n / 0x1_0000 == b0 * 0x100 + b1;
  }

  lemma LittleEndianBytesOfValue(b0: byte, b1: byte, b2: byte, b3: byte)
    ensures LittleEndianBytes(LittleEndianU32(b0, b1, b2, b3)) == [b0, b1, b2, b3]
  {
    var n := LittleEndianU32(b0, b1, b2, b3);
    assert n / 0x100 == b1 + b2 * 0x100 + b3 * 0x1_0000;
    assert n / 0x1_0000 == b2 + b3 * 0x100;
  }

  // ---------------------------------------------------------------------------
  // Array.prototype.slice / TypedArray.prototype.slice / ArrayBuffer.prototype.slice
  // ---------------------------------------------------------------------------

  /** A relative index as `slice` resolves it: negative counts from the end,
      and the result is clamped to [0, len]. */
  function RelativeIndex(i: int, len: nat): (r: nat)
    ensures r <= len
    ensures 0 <= i <= len ==> r == i
    ensures i < 0 && len + i <= 0 ==> r == 0
  {
    if i < 0 then (if len + i < 0 then 0 else len + i)
    else if i > len then len
    else i
  }

  /** `s.slice(begin, end)`. */
  function JsSlice<T>(s: seq<T>, begin: int, end: int): (r: seq<T>)
    ensures 0 <= begin <= end <= |s| ==> r == s[begin..end]
    ensures |r| <= |s|
  {
    var from := RelativeIndex(begin, |s|);
    var to := RelativeIndex(end, |s|);
    if from < to then s[from..to] else []
  }

  /** `s.slice(begin)`. */
  function JsSliceFrom<T>(s: seq<T>, begin: int): (r: seq<T>)
    ensures 0 <= begin <= |s| ==> r == s[begin..]
    ensures begin < 0 && |s| + begin <= 0 ==> r == s
  {
    JsSlice(s, begin, |s|)
  }
}

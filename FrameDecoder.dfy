/** The length-prefixed frame format read by the lidar-viewer WebsocketService
    (websocket.ts, handleMessage): a 4-byte big-endian metadata length L, L bytes
    of JSON metadata, `count * 12` bytes of positions and, when the metadata has a
    truthy `colors`, `count * 6` bytes of colours.

    This module is the pure specification of the decoding loop: one iteration is
    FrameStep, the whole loop is Decode. WebsocketService.HandleBinary runs the
    loop on its accumulation buffer and is proved equal to Decode. */
module WebsocketFrames {
  import opened Common
  import opened JsNumbers

  /** The fields of the parsed metadata object that the decoder consults. */
  datatype ChunkMeta = ChunkMeta(
    count: nat,    // `meta.count || 0`
    colors: bool,  // `!!meta['colors']`
    file: string   // `meta.file`, "" when absent (falsy)
  )

  /** One emitted chunk: the metadata with its position and optional colour bytes. */
  datatype ChunkPayload = ChunkPayload(meta: ChunkMeta, positions: seq<byte>, colors: Option<seq<byte>>)

  /** TextDecoder followed by JSON.parse; None when JSON.parse throws. */
  type MetaParser = seq<byte> -> Option<ChunkMeta>

  function PositionBytes(m: ChunkMeta): nat { m.count * 3 * 4 }

  function ColorBytes(m: ChunkMeta): nat { if m.colors then m.count * 3 * 2 else 0 }

  /** The outcome of one iteration of the decoding loop. */
  datatype Step =
    | NeedMore                                          // `break`: wait for more bytes
    | Dropped(rest: seq<byte>)                          // metadata did not parse: `continue`
    | Emitted(chunk: ChunkPayload, rest: seq<byte>)     // a complete frame was taken off the front

  /** The metadata length read from the first four bytes, in network byte order. */
  function MetaLength(buf: seq<byte>): nat
    requires |buf| >= 4
  {
    BigEndianU32(buf[0], buf[1], buf[2], buf[3])
  }

  /** One iteration of the `while (buffer.length >= 4)` loop, with the length read
      as an unsigned integer. */
  function FrameStep(parse: MetaParser, buf: seq<byte>): (r: Step)
    ensures |buf| < 4 ==> r == NeedMore
    ensures r.Dropped? ==> |buf| >= 4 + MetaLength(buf) && r.rest == buf[4 + MetaLength(buf)..]
    ensures r.Emitted? ==> |buf| >= 4 && |r.rest| + 4 + MetaLength(buf) <= |buf|
  {
    if |buf| < 4 then NeedMore
    else
      var metaLen := MetaLength(buf);
      if |buf| < 4 + metaLen then NeedMore
      else
        match parse(buf[4..4 + metaLen])
        case None => Dropped(buf[4 + metaLen..])
        case Some(meta) =>
          var posBytes := PositionBytes(meta);
          var colorBytes := ColorBytes(meta);
          if |buf| < 4 + metaLen + posBytes + colorBytes then NeedMore
          else
            var start := 4 + metaLen;
            var colors := if meta.colors then Some(buf[start + posBytes..start + posBytes + colorBytes]) else None;
            Emitted(ChunkPayload(meta, buf[start..start + posBytes], colors), buf[start + posBytes + colorBytes..])
  }

  /** What a run of the loop produces: the emitted chunks in order and the bytes left buffered. */
  datatype Decoded = Decoded(chunks: seq<ChunkPayload>, rest: seq<byte>)

  /** The whole loop: iterate FrameStep until it asks for more bytes. */
  function Decode(parse: MetaParser, buf: seq<byte>): (r: Decoded)
    ensures |r.rest| <= |buf|
    decreases |buf|
  {
    match FrameStep(parse, buf)
    case NeedMore => Decoded([], buf)
    case Dropped(rest) => Decode(parse, rest)
    case Emitted(c, rest) =>
      var d := Decode(parse, rest);
      Decoded([c] + d.chunks, d.rest)
  }

  /** Decode unfolded once, with the step named. */
  lemma DecodeUnfold(parse: MetaParser, buf: seq<byte>, step: Step)
    requires step == FrameStep(parse, buf)
    ensures step.NeedMore? ==> Decode(parse, buf) == Decoded([], buf)
    ensures step.Dropped? ==> Decode(parse, buf) == Decode(parse, step.rest)
    ensures step.Emitted? ==>
      Decode(parse, buf) == Decoded([step.chunk] + Decode(parse, step.rest).chunks, Decode(parse, step.rest).rest)
  {
  }

  /** Nothing is decoded while fewer than four bytes are buffered. */
  lemma ShortBufferWaits(parse: MetaParser, buf: seq<byte>)
    requires |buf| < 4
    ensures Decode(parse, buf) == Decoded([], buf)
  {
  }

  // ---------------------------------------------------------------------------
  // Fragmentation independence
  // ---------------------------------------------------------------------------

  /** A step that makes progress on `a` makes the same progress on any extension of `a`:
      every decision depends only on bytes the step consumes. */
  lemma StepExtends(parse: MetaParser, a: seq<byte>, b: seq<byte>)
    requires FrameStep(parse, a) != NeedMore
    ensures FrameStep(parse, a).Dropped? ==> FrameStep(parse, a + b) == Dropped(FrameStep(parse, a).rest + b)
    ensures FrameStep(parse, a).Emitted? ==>
      FrameStep(parse, a + b) == Emitted(FrameStep(parse, a).chunk, FrameStep(parse, a).rest + b)
  {
    var ab := a + b;
    assert ab[..|a|] == a;
    assert ab[0] == a[0] && ab[1] == a[1] && ab[2] == a[2] && ab[3] == a[3];
    var metaLen := MetaLength(a);
    assert MetaLength(ab) == metaLen;
    assert ab[4..4 + metaLen] == a[4..4 + metaLen];
    assert ab[4 + metaLen..] == a[4 + metaLen..] + b;
    match parse(a[4..4 + metaLen])
    case None =>
    case Some(meta) =>
      var start := 4 + metaLen;
      var end := start + PositionBytes(meta) + ColorBytes(meta);
      assert ab[start..start + PositionBytes(meta)] == a[start..start + PositionBytes(meta)];
      assert ab[start + PositionBytes(meta)..end] == a[start + PositionBytes(meta)..end];
      assert ab[end..] == a[end..] + b;
  }

  /** The statement of DecodeAppend for one pair of buffers. */
  predicate AppendAgrees(parse: MetaParser, a: seq<byte>, b: seq<byte>) {
    var first := Decode(parse, a);
    var second := Decode(parse, first.rest + b);
    Decode(parse, a + b) == Decoded(first.chunks + second.chunks, second.rest)
  }

  /** Decoding `a` and then decoding what is left with `b` appended yields the same
      chunks, in the same order, and the same remainder as decoding `a + b` at once. */
  lemma {:induction false} DecodeAppend(parse: MetaParser, a: seq<byte>, b: seq<byte>)
    ensures AppendAgrees(parse, a, b)
    decreases |a|
  {
    var step := FrameStep(parse, a);
    if step.NeedMore? {
      assert Decode(parse, a) == Decoded([], a);
    } else {
      DecodeAppend(parse, step.rest, b);
      AppendAfterStep(parse, a, b);
    }
  }

  /** The inductive step of DecodeAppend: agreement after the first frame carries over
      to the buffer that starts with it. */
  lemma AppendAfterStep(parse: MetaParser, a: seq<byte>, b: seq<byte>)
    requires !FrameStep(parse, a).NeedMore?
    requires AppendAgrees(parse, FrameStep(parse, a).rest, b)
    ensures AppendAgrees(parse, a, b)
  {
    var step := FrameStep(parse, a);
    StepExtends(parse, a, b);
    var rest := step.rest;
    var inner := Decode(parse, rest);
    var second := Decode(parse, inner.rest + b);
    if step.Emitted? {
      assert [step.chunk] + (inner.chunks + second.chunks) == ([step.chunk] + inner.chunks) + second.chunks;
    }
  }

  /** The loop leaves a buffer on which it would stop at once. */
  lemma {:induction false} DecodeRestIsIdle(parse: MetaParser, buf: seq<byte>)
    ensures FrameStep(parse, Decode(parse, buf).rest) == NeedMore
    decreases |buf|
  {
    var step := FrameStep(parse, buf);
    if !step.NeedMore? {
      DecodeRestIsIdle(parse, step.rest);
    }
  }

  /** The handler run once per binary message (append the fragment, then run the loop),
      applied to the fragments `frags` in order, starting from the buffer `buf`. */
  function Feed(parse: MetaParser, buf: seq<byte>, frags: seq<seq<byte>>): Decoded
    decreases |frags|
  {
    if |frags| == 0 then Decoded([], buf)
    else
      var d := Decode(parse, buf + frags[0]);
      var e := Feed(parse, d.rest, frags[1..]);
      Decoded(d.chunks + e.chunks, e.rest)
  }

  function Concat(frags: seq<seq<byte>>): seq<byte>
    decreases |frags|
  {
    if |frags| == 0 then [] else frags[0] + Concat(frags[1..])
  }

  /** Fragmentation independence: starting from a buffer the loop has stopped on
      (the empty buffer of a new connection, or what a previous message left), however
      a byte stream is split into messages the handler emits the same chunks and keeps
      the same remainder as if the stream had arrived as one message. */
  lemma {:induction false} FragmentationIndependence(parse: MetaParser, buf: seq<byte>, frags: seq<seq<byte>>)
    requires FrameStep(parse, buf) == NeedMore
    ensures Feed(parse, buf, frags) == Decode(parse, buf + Concat(frags))
    decreases |frags|
  {
    if |frags| == 0 {
      assert buf + Concat(frags) == buf;
    } else {
      var x := buf + frags[0];
      var tail := Concat(frags[1..]);
      var d := Decode(parse, x);
      DecodeRestIsIdle(parse, x);
      FragmentationIndependence(parse, d.rest, frags[1..]);
      var e := Decode(parse, d.rest + tail);
      assert Feed(parse, buf, frags) == Decoded(d.chunks + e.chunks, e.rest);
      DecodeAppend(parse, x, tail);
      assert Decode(parse, x + tail) == Decoded(d.chunks + e.chunks, e.rest);
      AppendAssoc(buf, frags[0], tail);
      assert Concat(frags) == frags[0] + tail;
    }
  }

  // ---------------------------------------------------------------------------
  // The encoder and the round trip
  // ---------------------------------------------------------------------------

  /** The parts of one frame as a sender lays them out. */
  datatype Frame = Frame(metaBytes: seq<byte>, positions: seq<byte>, colors: seq<byte>)

  function EncodeFrame(f: Frame): (bs: seq<byte>)
    requires |f.metaBytes| < TWO_32
    ensures |bs| == 4 + |f.metaBytes| + |f.positions| + |f.colors|
  {
    BigEndianBytes(|f.metaBytes|) + f.metaBytes + f.positions + f.colors
  }

  /** A frame whose metadata parses and whose payload sizes match it. */
  predicate WellFormed(parse: MetaParser, f: Frame) {
    && |f.metaBytes| < TWO_32
    && parse(f.metaBytes).Some?
    && |f.positions| == PositionBytes(parse(f.metaBytes).value)
    && |f.colors| == ColorBytes(parse(f.metaBytes).value)
  }

  /** The chunk a well-formed frame stands for. */
  function Expected(parse: MetaParser, f: Frame): ChunkPayload
    requires WellFormed(parse, f)
  {
    var m := parse(f.metaBytes).value;
    ChunkPayload(m, f.positions, if m.colors then Some(f.colors) else None)
  }

  lemma HeaderOfEncoded(f: Frame, rest: seq<byte>)
    requires |f.metaBytes| < TWO_32
    ensures var bs := EncodeFrame(f) + rest;
      && |bs| >= 4 && MetaLength(bs) == |f.metaBytes|
      && bs[4..4 + |f.metaBytes|] == f.metaBytes
      && bs[4 + |f.metaBytes|..] == f.positions + f.colors + rest
  {
    var bs := EncodeFrame(f) + rest;
    var h := BigEndianBytes(|f.metaBytes|);
    BigEndianRoundTrip(|f.metaBytes|);
    assert bs == h + (f.metaBytes + (f.positions + f.colors + rest));
    assert bs[0] == h[0] && bs[1] == h[1] && bs[2] == h[2] && bs[3] == h[3];
  }

  /** A well-formed frame at the front of the buffer is emitted whole and exactly its
      bytes are removed. */
  lemma DecodeFrameRoundTrip(parse: MetaParser, f: Frame, rest: seq<byte>)
    requires WellFormed(parse, f)
    ensures FrameStep(parse, EncodeFrame(f) + rest) == Emitted(Expected(parse, f), rest)
  {
    var bs := EncodeFrame(f) + rest;
    HeaderOfEncoded(f, rest);
    var m := parse(f.metaBytes).value;
    var start := 4 + |f.metaBytes|;
    var tail := bs[start..];
    assert tail == f.positions + f.colors + rest;
    assert bs[start..start + |f.positions|] == tail[..|f.positions|] == f.positions;
    assert bs[start + |f.positions|..start + |f.positions| + |f.colors|]
        == tail[|f.positions|..|f.positions| + |f.colors|] == f.colors;
    assert bs[start + |f.positions| + |f.colors|..] == tail[|f.positions| + |f.colors|..] == rest;
  }

  /** The converse of DecodeFrameRoundTrip: whatever the loop emits is the decoding of
      a well-formed frame, and that frame followed by the remainder is exactly the
      buffer the step started from. */
  lemma EmittedIsEncodedFrame(parse: MetaParser, buf: seq<byte>)
    requires FrameStep(parse, buf).Emitted?
    ensures var step := FrameStep(parse, buf);
      var f := Frame(buf[4..4 + MetaLength(buf)], step.chunk.positions,
                     if step.chunk.colors.Some? then step.chunk.colors.value else []);
      WellFormed(parse, f) && Expected(parse, f) == step.chunk && EncodeFrame(f) + step.rest == buf
  {
    var step := FrameStep(parse, buf);
    var metaLen := MetaLength(buf);
    var meta := parse(buf[4..4 + metaLen]).value;
    var start := 4 + metaLen;
    var mid := start + PositionBytes(meta);
    var end := mid + ColorBytes(meta);
    var f := Frame(buf[4..start], buf[start..mid], buf[mid..end]);
    BigEndianBytesOfValue(buf[0], buf[1], buf[2], buf[3]);
    assert buf[..4] == BigEndianBytes(metaLen);
    assert buf == buf[..4] + buf[4..start] + buf[start..mid] + buf[mid..end] + buf[end..];
  }

  /** Metadata that does not parse drops exactly the header and the metadata bytes,
      emitting nothing. */
  lemma MalformedMetaDropped(parse: MetaParser, metaBytes: seq<byte>, rest: seq<byte>)
    requires |metaBytes| < TWO_32 && parse(metaBytes).None?
    ensures FrameStep(parse, BigEndianBytes(|metaBytes|) + metaBytes + rest) == Dropped(rest)
  {
    var f := Frame(metaBytes, [], []);
    HeaderOfEncoded(f, rest);
    assert EncodeFrame(f) + rest == BigEndianBytes(|metaBytes|) + metaBytes + rest;
  }

  function EncodeAll(fs: seq<Frame>): seq<byte>
    requires forall i :: 0 <= i < |fs| ==> |fs[i].metaBytes| < TWO_32
    decreases |fs|
  {
    if |fs| == 0 then [] else EncodeFrame(fs[0]) + EncodeAll(fs[1..])
  }

  function ExpectedAll(parse: MetaParser, fs: seq<Frame>): seq<ChunkPayload>
    requires forall i :: 0 <= i < |fs| ==> WellFormed(parse, fs[i])
    decreases |fs|
  {
    if |fs| == 0 then [] else [Expected(parse, fs[0])] + ExpectedAll(parse, fs[1..])
  }

  /** A stream of well-formed frames decodes to their chunks, in order, leaving nothing. */
  lemma {:induction false} DecodeStreamRoundTrip(parse: MetaParser, fs: seq<Frame>)
    requires forall i :: 0 <= i < |fs| ==> |fs[i].metaBytes| < TWO_32 && WellFormed(parse, fs[i])
    ensures Decode(parse, EncodeAll(fs)) == Decoded(ExpectedAll(parse, fs), [])
    decreases |fs|
  {
    if |fs| > 0 {
      DecodeFrameRoundTrip(parse, fs[0], EncodeAll(fs[1..]));
      DecodeStreamRoundTrip(parse, fs[1..]);
    }
  }

  /** A frame is withheld until its last byte has arrived: any proper prefix of a
      well-formed frame, colour bytes included, emits nothing and stays buffered. */
  lemma PartialFrameWaits(parse: MetaParser, f: Frame, k: nat)
    requires WellFormed(parse, f) && k < |EncodeFrame(f)|
    ensures Decode(parse, EncodeFrame(f)[..k]) == Decoded([], EncodeFrame(f)[..k])
  {
    var bs := EncodeFrame(f);
    var p := bs[..k];
    if k >= 4 {
      HeaderOfEncoded(f, []);
      assert bs + [] == bs;
      assert p[0] == bs[0] && p[1] == bs[1] && p[2] == bs[2] && p[3] == bs[3];
      if k >= 4 + |f.metaBytes| {
        assert p[4..4 + |f.metaBytes|] == bs[4..4 + |f.metaBytes|];
      }
    }
  }

  // ---------------------------------------------------------------------------
  // The loop as written: a signed length
  // ---------------------------------------------------------------------------

  /** websocket.ts line 82 computes the length with `<<` and `|`, which yield a signed
      32-bit integer: a first byte of 0x80 or more gives a negative length. */
  function MetaLengthAsWritten(buf: seq<byte>): (n: int)
    requires |buf| >= 4
    ensures buf[0] < 128 ==> n == MetaLength(buf)
    ensures buf[0] >= 128 ==> n == MetaLength(buf) - TWO_32 < 0
  {
    SignedOr4Sign(buf[0], buf[1], buf[2], buf[3]);
    SignedOr4(buf[0], buf[1], buf[2], buf[3])
  }

  /** One iteration of the loop exactly as written, with JavaScript `slice` semantics
      for the (possibly negative) indices that a negative length produces. */
  function FrameStepAsWritten(parse: MetaParser, buf: seq<byte>): (r: Step)
    ensures |buf| < 4 ==> r == NeedMore
    ensures !r.NeedMore? ==> |buf| >= 4 && |r.rest| <= |buf|
    ensures r.Dropped? ==> parse(JsSlice(buf, 4, 4 + MetaLengthAsWritten(buf))).None?
  {
    if |buf| < 4 then NeedMore
    else
      var metaLen := MetaLengthAsWritten(buf);
      if |buf| < 4 + metaLen then NeedMore
      else
        match parse(JsSlice(buf, 4, 4 + metaLen))
        case None => Dropped(JsSliceFrom(buf, 4 + metaLen))
        case Some(meta) =>
          var posBytes := PositionBytes(meta);
          var colorBytes := ColorBytes(meta);
          if |buf| < 4 + metaLen + posBytes + colorBytes then NeedMore
          else
            var start := 4 + metaLen;
            var colors := if meta.colors then Some(JsSlice(buf, start + posBytes, start + posBytes + colorBytes)) else None;
            Emitted(ChunkPayload(meta, JsSlice(buf, start, start + posBytes), colors),
                    JsSliceFrom(buf, start + posBytes + colorBytes))
  }

  /** While the first byte is below 0x80 the loop as written and the unsigned reading agree. */
  lemma AsWrittenAgreesBelowTopBit(parse: MetaParser, buf: seq<byte>)
    requires |buf| >= 4 ==> buf[0] < 128
    ensures FrameStepAsWritten(parse, buf) == FrameStep(parse, buf)
  {
    if |buf| >= 4 {
      SignedOr4Sign(buf[0], buf[1], buf[2], buf[3]);
      assert MetaLengthAsWritten(buf) == MetaLength(buf);
    }
  }

  /** With a first byte of 0x80 or more and a buffer shorter than the magnitude of the
      negative length, the metadata slice is empty, JSON.parse("") throws, and
      `buffer.slice(4 + metaLen)` returns the whole buffer: the iteration changes
      nothing, so the `while` loop repeats it forever. */
  lemma AsWrittenStalls(parse: MetaParser, buf: seq<byte>)
    requires parse([]).None?
    requires |buf| >= 4 && |buf| + 4 + MetaLengthAsWritten(buf) <= 0
    ensures FrameStepAsWritten(parse, buf) == Dropped(buf)
  {
    assert JsSlice(buf, 4, 4 + MetaLengthAsWritten(buf)) == [];
  }

  /** A concrete frame header 80 00 00 00 (a length of 2^31) followed by two bytes:
      the code as written spins, while the unsigned reading waits for more data. */
  lemma AsWrittenStallExample(parse: MetaParser)
    requires parse([]).None?
    ensures FrameStepAsWritten(parse, [0x80, 0, 0, 0, 1, 2]) == Dropped([0x80, 0, 0, 0, 1, 2])
    ensures FrameStep(parse, [0x80, 0, 0, 0, 1, 2]) == NeedMore
  {
    var buf: seq<byte> := [0x80, 0, 0, 0, 1, 2];
    SignedOr4Sign(buf[0], buf[1], buf[2], buf[3]);
    AsWrittenStalls(parse, buf);
  }
}

/** The header decoding and type dispatch of the frontend BinaryWebsocketService
    (binary-websocket.service.ts, `onmessage`). A binary packet is one type byte, a
    little-endian 32-bit metadata length L, L bytes of JSON metadata and a payload
    running to the end of the packet. Each received message yields at most one
    decoded message, returned here as an Option instead of pushed on a subject. */
module BinaryWebsocket {
  import opened Common
  import opened JsNumbers

  /** What `event.data` can be: a string, an ArrayBuffer, or anything else. */
  datatype Incoming = Text(text: string) | Binary(data: seq<byte>) | OtherData

  /** A decoded message (BinaryWSMsg). `M` stands for the parsed metadata object
      and `J` for any parsed JSON value. */
  datatype Msg<M, J> =
    | Json(value: J)
    | Meta(meta: M)
    | Positions(meta: M, buffer: seq<byte>)
    | Colors(meta: M, buffer: seq<byte>)

  const META: byte := 0
  const POSITIONS: byte := 1
  const COLORS: byte := 2

  /** The header offset of the metadata: one type byte and a four-byte length. */
  const HEADER: nat := 5

  /** The header as the DataView reads it; None where `getUint8(0)`,
      `getUint32(1, true)` or the `Uint8Array(data, 5, L)` view throws a RangeError. */
  function ReadHeader(data: seq<byte>): (r: Option<(byte, nat)>)
    ensures r.Some? <==> |data| >= HEADER && HEADER + LittleEndianU32(data[1], data[2], data[3], data[4]) <= |data|
    ensures r.Some? ==> r.value.0 == data[0] && r.value.1 == LittleEndianU32(data[1], data[2], data[3], data[4])
  {
    if |data| < 1 then None
    else if |data| < HEADER then None
    else
      var metaLen := LittleEndianU32(data[1], data[2], data[3], data[4]);
      if HEADER + metaLen > |data| then None
      else Some((data[0], metaLen))
  }

  /** The binary branch of `onmessage`: read the header, parse the metadata, slice the
      payload and dispatch on the type byte. Any exception inside the `try` (a short
      packet, JSON that does not parse) produces no message, as does an unknown type. */
  function DecodeBinary<M, J>(parseMeta: seq<byte> -> Option<M>, data: seq<byte>): (r: Option<Msg<M, J>>)
    ensures r.Some? <==> ReadHeader(data).Some? && data[0] <= COLORS &&
                         parseMeta(data[HEADER..HEADER + ReadHeader(data).value.1]).Some?
    ensures r.Some? ==> !r.value.Json? && (r.value.Meta? <==> data[0] == META) &&
                        (r.value.Positions? <==> data[0] == POSITIONS)
    ensures r.Some? && !r.value.Meta? ==> r.value.buffer == data[HEADER + ReadHeader(data).value.1..]
  {
    match ReadHeader(data)
    case None => None
    case Some((kind, metaLen)) =>
      match parseMeta(data[HEADER..HEADER + metaLen])
      case None => None
      case Some(meta) =>
        var payload := data[HEADER + metaLen..];
        if kind == META then Some(Meta(meta))
        else if kind == POSITIONS then Some(Positions(meta, payload))
        else if kind == COLORS then Some(Colors(meta, payload))
        else None
  }

  /** `onmessage`: a string is parsed as JSON and wrapped, an ArrayBuffer is decoded,
      and anything else is ignored. */
  function OnMessage<M, J>(parseMeta: seq<byte> -> Option<M>, parseJson: string -> Option<J>,
                           event: Incoming): (r: Option<Msg<M, J>>)
    ensures r.Some? && r.value.Json? <==> event.Text? && parseJson(event.text).Some?
    ensures r.Some? && !r.value.Json? ==> event.Binary?
    ensures event.OtherData? ==> r.None?
  {
    match event
    case Text(s) => (match parseJson(s) case None => None case Some(j) => Some(Json(j)))
    case Binary(data) => DecodeBinary(parseMeta, data)
    case OtherData => None
  }

  // ---------------------------------------------------------------------------
  // The packet layout a sender writes
  // ---------------------------------------------------------------------------

  function EncodePacket(kind: byte, metaBytes: seq<byte>, payload: seq<byte>): (bs: seq<byte>)
    requires |metaBytes| < TWO_32
    ensures |bs| == HEADER + |metaBytes| + |payload|
  {
    [kind] + LittleEndianBytes(|metaBytes|) + metaBytes + payload
  }

  /** The message a packet of a known type stands for. */
  function Expected<M, J>(kind: byte, meta: M, payload: seq<byte>): Option<Msg<M, J>> {
    if kind == META then Some(Meta(meta))
    else if kind == POSITIONS then Some(Positions(meta, payload))
    else if kind == COLORS then Some(Colors(meta, payload))
    else None
  }

  lemma HeaderOfPacket(kind: byte, metaBytes: seq<byte>, payload: seq<byte>)
    requires |metaBytes| < TWO_32
    ensures var bs := EncodePacket(kind, metaBytes, payload);
      && ReadHeader(bs) == Some((kind, |metaBytes|))
      && bs[HEADER..HEADER + |metaBytes|] == metaBytes
      && bs[HEADER + |metaBytes|..] == payload
  {
    var bs := EncodePacket(kind, metaBytes, payload);
    var h := [kind] + LittleEndianBytes(|metaBytes|);
    LittleEndianRoundTrip(|metaBytes|);
    assert bs == h + (metaBytes + payload);
    assert bs[1] == h[1] && bs[2] == h[2] && bs[3] == h[3] && bs[4] == h[4];
  }

  /** Round trip: a packet whose metadata parses decodes to the message its type
      stands for, with the payload intact; an unknown type yields nothing. */
  lemma DecodeEncodedPacket<M, J>(parseMeta: seq<byte> -> Option<M>, kind: byte, metaBytes: seq<byte>, payload: seq<byte>)
    requires |metaBytes| < TWO_32 && parseMeta(metaBytes).Some?
    ensures DecodeBinary<M, J>(parseMeta, EncodePacket(kind, metaBytes, payload))
         == Expected<M, J>(kind, parseMeta(metaBytes).value, payload)
  {
    HeaderOfPacket(kind, metaBytes, payload);
  }

  /** Metadata that does not parse yields no message, whatever the type and payload. */
  lemma BadMetaIgnored<M, J>(parseMeta: seq<byte> -> Option<M>, kind: byte, metaBytes: seq<byte>, payload: seq<byte>)
    requires |metaBytes| < TWO_32 && parseMeta(metaBytes).None?
    ensures DecodeBinary<M, J>(parseMeta, EncodePacket(kind, metaBytes, payload)) == None
  {
    HeaderOfPacket(kind, metaBytes, payload);
  }

  /** The converse: every decoded binary message comes from exactly one packet layout,
      whose type, metadata and payload it reports. */
  lemma DecodedIsEncodedPacket<M, J>(parseMeta: seq<byte> -> Option<M>, data: seq<byte>)
    requires DecodeBinary<M, J>(parseMeta, data).Some?
    ensures |data| >= HEADER
    ensures var metaLen := LittleEndianU32(data[1], data[2], data[3], data[4]);
      && HEADER + metaLen <= |data|
      && var metaBytes := data[HEADER..HEADER + metaLen];
      && var payload := data[HEADER + metaLen..];
      && parseMeta(metaBytes).Some?
      && data == EncodePacket(data[0], metaBytes, payload)
      && DecodeBinary<M, J>(parseMeta, data) == Expected<M, J>(data[0], parseMeta(metaBytes).value, payload)
  {
    var metaLen := LittleEndianU32(data[1], data[2], data[3], data[4]);
    var metaBytes := data[HEADER..HEADER + metaLen];
    LittleEndianBytesOfValue(data[1], data[2], data[3], data[4]);
    assert data[1..HEADER] == LittleEndianBytes(metaLen);
    assert data == [data[0]] + data[1..HEADER] + metaBytes + data[HEADER + metaLen..];
  }

  /** A packet too short to hold the header, or whose length field reaches past its
      end, yields no message. */
  lemma ShortPacketIgnored<M, J>(parseMeta: seq<byte> -> Option<M>, data: seq<byte>)
    requires |data| < HEADER || HEADER + LittleEndianU32(data[1], data[2], data[3], data[4]) > |data|
    ensures DecodeBinary<M, J>(parseMeta, data) == None
  {
  }

  /** A text message yields exactly one JSON message when it parses and none otherwise;
      it never produces a binary message. */
  lemma TextMessages<M, J>(parseMeta: seq<byte> -> Option<M>, parseJson: string -> Option<J>, s: string)
    ensures OnMessage(parseMeta, parseJson, Text(s)) ==
      if parseJson(s).Some? then Some(Json(parseJson(s).value)) else None
  {
  }
}

/** The lidar-viewer WebsocketService (websocket.ts): the accumulation buffer, the
    files list and the meta/chunk streams it publishes. The socket itself is not
    modelled; a received message is a call to HandleText or HandleBinary. */
module WebsocketServiceModel {
  import opened Common
  import opened WebsocketFrames

  /** The values pushed on `status$`. */
  datatype Status = Closed | Open | Failed

  /** The fields of a parsed text message that the handler consults. */
  datatype TextJson = TextJson(
    kind: string,                 // `j.type`, "" when absent
    fileList: Option<seq<string>>, // `j.files` when it is an array
    meta: ChunkMeta               // the object itself, as published on `meta$`
  )

  /** Metadata of the chunks in order: one `meta$` emission per emitted chunk. */
  function MetasOf(cs: seq<ChunkPayload>): (ms: seq<ChunkMeta>)
  {
    seq(|cs|, i requires 0 <= i < |cs| => cs[i].meta)
  }

  /** The truthy `meta.file` names of the chunks, in order. */
  function FileNames(cs: seq<ChunkPayload>): (names: seq<string>)
    decreases |cs|
  {
    if |cs| == 0 then []
    else
      var last := cs[|cs| - 1];
      FileNames(cs[..|cs| - 1]) + (if last.meta.file != "" then [last.meta.file] else [])
  }

  class WebsocketService {
    /** TextDecoder + JSON.parse of a frame's metadata bytes. */
    const parseMeta: MetaParser
    /** JSON.parse of a text message. */
    const parseText: string -> Option<TextJson>

    /** `this.buffer`: bytes received but not yet decoded. */
    var buffer: seq<byte>
    /** The current value of `files$`. */
    var files: seq<string>
    /** Every value pushed on `meta$`, oldest first. */
    var metas: seq<ChunkMeta>
    /** Every value pushed on `chunk$`, oldest first. */
    var chunks: seq<ChunkPayload>
    /** The current value of `status$`. */
    var status: Status

    /** The files list is a set: rebuilding it as one changes nothing, which is the
        same as holding no name twice (UniqueFixedPoint). */
    ghost predicate Valid()
      reads this
    {
      Unique(files) == files
    }

    constructor (parseMeta: MetaParser, parseText: string -> Option<TextJson>)
      ensures this.parseMeta == parseMeta && this.parseText == parseText
      ensures buffer == [] && files == [] && metas == [] && chunks == [] && status == Closed
      ensures Valid()
    {
      this.parseMeta := parseMeta;
      this.parseText := parseText;
      buffer := [];
      files := [];
      metas := [];
      chunks := [];
      status := Closed;
    }

    /** `disconnect`: the socket is dropped, undecoded bytes are discarded and the
        status becomes closed; what was published stays published. */
    method Disconnect()
      modifies this
      ensures buffer == [] && status == Closed
      ensures files == old(files) && metas == old(metas) && chunks == old(chunks)
    {
      buffer := [];
      status := Closed;
    }

    /** A text message: a `files` list is merged into the files set, any other JSON is
        published as metadata, and text that is not JSON is ignored. */
    method HandleText(data: string)
      requires Valid()
      modifies this
      ensures Valid()
      ensures buffer == old(buffer) && chunks == old(chunks) && status == old(status)
      ensures match parseText(data)
        case None => files == old(files) && metas == old(metas)
        case Some(j) =>
          if j.kind == "files" && j.fileList.Some? then
            files == Unique(old(files) + j.fileList.value) && metas == old(metas)
          else
            files == old(files) && metas == old(metas) + [j.meta]
    {
      var parsed := parseText(data);
      if parsed.None? {
        return;
      }
      var j := parsed.value;
      if j.kind == "files" && j.fileList.Some? {
        UniqueIdempotent(files + j.fileList.value);
        files := Unique(files + j.fileList.value);
      } else {
        metas := metas + [j.meta];
      }
    }

    /** The body of one loop iteration up to the point where it decides: wait for more
        bytes, drop malformed metadata, or take one frame off the front. */
    method NextFrame(buf: seq<byte>) returns (step: Step)
      requires |buf| >= 4
      ensures step == FrameStep(parseMeta, buf)
    {
      var metaLen := MetaLength(buf);
      if |buf| < 4 + metaLen {
        return NeedMore;
      }
      var parsed := parseMeta(buf[4..4 + metaLen]);
      if parsed.None? {
        return Dropped(buf[4 + metaLen..]);
      }
      var meta := parsed.value;
      var posBytes := PositionBytes(meta);
      var colorBytes := ColorBytes(meta);
      if |buf| < 4 + metaLen + posBytes + colorBytes {
        return NeedMore;
      }
      var start := 4 + metaLen;
      var positions := buf[start..start + posBytes];
      var colors := if meta.colors then Some(buf[start + posBytes..start + posBytes + colorBytes]) else None;
      step := Emitted(ChunkPayload(meta, positions, colors), buf[start + posBytes + colorBytes..]);
    }

    /** The end of an iteration that emitted a chunk: its file name joins the files
        set when it is truthy, then its metadata and the chunk are published. */
    method Publish(chunk: ChunkPayload, ghost files0: seq<string>, ghost metas0: seq<ChunkMeta>,
                   ghost chunks0: seq<ChunkPayload>, ghost emitted: seq<ChunkPayload>)
      requires chunks == chunks0 + emitted && metas == metas0 + MetasOf(emitted)
      requires files == Unique(files0 + FileNames(emitted))
      modifies this
      ensures files == if chunk.meta.file != "" then Unique(old(files) + [chunk.meta.file]) else old(files)
      ensures metas == old(metas) + [chunk.meta] && chunks == old(chunks) + [chunk]
      ensures buffer == old(buffer) && status == old(status)
      ensures chunks == chunks0 + (emitted + [chunk]) && metas == metas0 + MetasOf(emitted + [chunk])
      ensures files == Unique(files0 + FileNames(emitted + [chunk]))
    {
      MetasAppend(emitted, chunk);
      FilesAppend(files0, emitted, chunk);
      AppendAssoc(chunks0, emitted, [chunk]);
      AppendAssoc(metas0, MetasOf(emitted), [chunk.meta]);
      if chunk.meta.file != "" {
        files := Unique(files + [chunk.meta.file]);
      }
      metas := metas + [chunk.meta];
      chunks := chunks + [chunk];
    }

    /** A binary message: the fragment is appended after the bytes already buffered
        and the frame loop runs on the whole buffer. */
    method HandleBinary(fragment: seq<byte>)
      requires Valid()
      modifies this
      ensures Valid()
      ensures var d := Decode(parseMeta, old(buffer) + fragment);
        && buffer == d.rest
        && chunks == old(chunks) + d.chunks
        && metas == old(metas) + MetasOf(d.chunks)
        && files == Unique(old(files) + FileNames(d.chunks))
      ensures status == old(status)
    {
      buffer := buffer + fragment;
      ghost var names := FileNames(Decode(parseMeta, buffer).chunks);
      DrainFrames();
      UniqueIdempotent(old(files) + names);
    }

    /** The `while (buffer.length >= 4)` loop: it runs until it needs more bytes, and
        its effect is exactly the pure decoding of the buffer: the chunks are published
        in order (with their metadata and file names) and the remainder is kept. The
        length is read unsigned, which the loop needs in order to terminate (see
        FrameStepAsWritten). */
    method DrainFrames()
      requires Valid()
      modifies this
      ensures var d := Decode(parseMeta, old(buffer));
        && buffer == d.rest
        && chunks == old(chunks) + d.chunks
        && metas == old(metas) + MetasOf(d.chunks)
        && files == Unique(old(files) + FileNames(d.chunks))
      ensures status == old(status)
    {
      ghost var target := Decode(parseMeta, buffer);
      ghost var emitted: seq<ChunkPayload> := [];
      assert old(files) + FileNames(emitted) == files;
      while |buffer| >= 4
        invariant target.chunks == emitted + Decode(parseMeta, buffer).chunks
        invariant target.rest == Decode(parseMeta, buffer).rest
        invariant chunks == old(chunks) + emitted
        invariant metas == old(metas) + MetasOf(emitted)
        invariant files == Unique(old(files) + FileNames(emitted))
        invariant status == old(status)
        decreases |buffer|
      {
        var step := NextFrame(buffer);
        if step.NeedMore? {
          break;
        } else if step.Dropped? {
          buffer := step.rest;
        } else {
          var chunk := step.chunk;
          AppendAssoc(emitted, [chunk], Decode(parseMeta, step.rest).chunks);
          Publish(chunk, old(files), old(metas), old(chunks), emitted);
          buffer := step.rest;
          emitted := emitted + [chunk];
        }
      }
      assert Decode(parseMeta, buffer) == Decoded([], buffer);
      assert target.chunks == emitted;
    }
  }

  lemma MetasAppend(emitted: seq<ChunkPayload>, chunk: ChunkPayload)
    ensures MetasOf(emitted + [chunk]) == MetasOf(emitted) + [chunk.meta]
  {
  }

  /** Publishing one more chunk adds its file name, if it has one, to the files set. */
  lemma FilesAppend(files0: seq<string>, emitted: seq<ChunkPayload>, chunk: ChunkPayload)
    ensures chunk.meta.file == "" ==> FileNames(emitted + [chunk]) == FileNames(emitted)
    ensures chunk.meta.file != "" ==>
      Unique(Unique(files0 + FileNames(emitted)) + [chunk.meta.file]) == Unique(files0 + FileNames(emitted + [chunk]))
  {
    assert (emitted + [chunk])[..|emitted|] == emitted;
    var names := FileNames(emitted);
    if chunk.meta.file != "" {
      UniqueOfUniqueAppend(files0 + names, [chunk.meta.file]);
      assert files0 + names + [chunk.meta.file] == files0 + (names + [chunk.meta.file]);
    }
  }

  /** The files list only grows: every earlier name keeps its position and its
      single occurrence, and every new name comes from `added`. */
  lemma FilesOnlyGrow(before: seq<string>, added: seq<string>)
    requires NoDuplicates(before)
    ensures var after := Unique(before + added);
      && |before| <= |after| && after[..|before|] == before
      && NoDuplicates(after)
      && forall n :: n in after <==> n in before || n in added
  {
    UniquePrefix(before, added);
    UniqueOfDistinct(before);
    UniqueProperties(before + added);
  }
}

# LiDAR point-cloud streaming: a verified model of its core

The system streams LiDAR point clouds from a Python backend to browser viewers.

On the backend:
- `laz_processor.py` cuts a LAZ file into chunks of interleaved positions and colours, each sent with a metadata record.
- `preprocess.py` bins the points of several files into 100 m square tiles and writes each tile with its origin subtracted.
- The dataset route and the spatial index answer bounding-box queries over those tiles.

On the frontends:
- The lidar-viewer reassembles length-prefixed frames from a websocket byte stream (`websocket.ts`) with a cursor reader (`buffer-reader.ts`), and keeps the points in a budgeted octree (`octree.ts`).
- The frontend decodes typed binary packets (`binary-websocket.service.ts`).
- The viewer (`point-cloud-viewer.ts`) pairs position and colour frames and copies chunks into growable per-file buffer pools.
- A count-triggered batcher (`stream-buffer.ts`) groups chunks.
- Two web workers flatten and filter point lists.
- `laz-service.ts` chooses a batch size and a request kind.

Each file is modelled in the form its code has:
- Objects whose fields change are classes. Their methods are proved against specification functions: `WebsocketService`, `BufferReader`, `PointCloudViewer`, `StreamBuffer`, `Octree`, `LazPreprocessor` and `SpatialIndex`.
- Loops are methods with loop invariants, covering the workers, `_slice_iter`, `write_tiles`, `get_tiles_for_bbox` and `query`.
- Pure decisions are functions: the binary header decode and `calculateOptimalBatchSize`.

The properties are proved as lemmas about the specification functions:
- fragmentation independence and round trips of the frame format;
- the pool insert and flush rules, and the pool drain: which chunks went in, in what order, what the pools and scene became, and where a throw stopped it;
- batching without loss;
- the octree's point budget;
- slice partitions and counter bookkeeping of the chunk stream;
- binning and truncation of tiles;
- exactness and order of the bounding-box queries.

Modules:

| file | module | models |
|---|---|---|
| JsNumbers.dfy | JsNumbers | ECMAScript ToInt32/ToUint32, byte-order packing, `slice` |
| Common.dfy | Common | shared types, the insertion-ordered set, `str(int)` and the `"tx_ty"` tile id |
| FrameDecoder.dfy | WebsocketFrames | the frame loop of `handleMessage` as a function, and its properties |
| WebsocketService.dfy | WebsocketServiceModel | the lidar-viewer `WebsocketService` object |
| BufferReader.dfy | BufferReaderModel | `BufferReader` |
| BinaryWebsocket.dfy | BinaryWebsocket | `onmessage` of `BinaryWebsocketService` |
| PoolSpec.dfy | PoolSpec | one viewer pool as a value: create, insert, grow, flush |
| Drain.dfy | Drain | the batched drain of a queue, for any insert step: the fold of the inserts, where a throw stops it, what is lost |
| PointCloudViewer.dfy | PointCloudViewerModel | the viewer's pools, queue and frame pairing |
| StreamBuffer.dfy | StreamBufferModel | `StreamBuffer` |
| Octree.dfy | OctreeModel | `Octree` and `OctreeNode` |
| DataProcessorWorker.dfy | DataProcessorWorker | the `process-batch` handler |
| PointCloudWorker.dfy | PointCloudWorker | `processPointCloudData`, `createBufferGeometry`, `calculatePointNormals` |
| LazService.dfy | LazService | `calculateOptimalBatchSize`, `loadAllFilesWithConfig` |
| LazProcessor.dfy | LazProcessor | `stream_chunks_binary` |
| Preprocess.dfy | Preprocess | `floor_div`, `process_files`, `write_tiles` |
| DatasetRoute.dfy | DatasetRoute | `get_tiles_for_bbox` |
| SpatialIndex.dfy | SpatialIndex | `SpatialIndex` |

Libraries are parameters of the model:
- `JSON.parse` and `TextDecoder` are parser functions that return `None` where `JSON.parse` throws.
- The IEEE 754 reading of bytes as a `Float32Array` is a decoder function from bytes to reals.
- The point validity test `isValidPoint` is a predicate.

Format mismatch, modelled as written on each side:
- The backend's chunk metadata carries `count`/`has_color` and float32 colours (backend/laz_processor.py:344-348, 361-373).
- The lidar-viewer frame decoder reads `count`/`colors` and takes 2 bytes per colour channel (lidar-viewer/src/app/services/websocket/websocket.ts:90-93).
- So a backend colour chunk does not decode as the decoder expects. Each side is modelled from its own code.

## Model

| member | source | states |
|---|---|---|
| JsNumbers.ToUint32 | lidar-viewer/src/app/utils/buffer-reader.ts:9-14 | `>>> 0`: the result is in [0, 2^32) and congruent to the input modulo 2^32 |
| JsNumbers.ToInt32 | lidar-viewer/src/app/services/websocket/websocket.ts:82 | the signed 32-bit result of the shift-or operators is in [-2^31, 2^31) and congruent to the input modulo 2^32 |
| JsNumbers.BigEndianU32 | lidar-viewer/src/app/utils/buffer-reader.ts:9-14 | the unsigned big-endian value of four bytes lies in [0, 2^32), with b0 as its top byte and b3 as its bottom byte |
| JsNumbers.LittleEndianU32 | frontend/src/app/services/binary-websocket.service.ts:71 | `getUint32(1, true)`: the little-endian value of four bytes lies in [0, 2^32), with b0 as its bottom byte and b3 as its top byte |
| JsNumbers.SignedOr4Sign | lidar-viewer/src/app/services/websocket/websocket.ts:82 | the signed shift-or equals the unsigned value exactly when the top bit of byte 0 is clear, and is negative otherwise |
| JsNumbers.UnsignedShiftRestores | lidar-viewer/src/app/utils/buffer-reader.ts:9-14 | `>>> 0` applied to the signed shift-or gives the unsigned big-endian value |
| JsNumbers.BigEndianBytes | lidar-viewer/src/app/services/websocket/websocket.ts:82 | the four network-order bytes of a 32-bit length |
| JsNumbers.LittleEndianBytes | frontend/src/app/services/binary-websocket.service.ts:71 | the four little-endian bytes of a 32-bit length |
| JsNumbers.BigEndianRoundTrip | lidar-viewer/src/app/services/websocket/websocket.ts:82 | decoding the encoded bytes of any n in [0, 2^32) gives n |
| JsNumbers.LittleEndianRoundTrip | frontend/src/app/services/binary-websocket.service.ts:71 | the same round trip for little-endian |
| JsNumbers.BigEndianBytesOfValue | lidar-viewer/src/app/services/websocket/websocket.ts:82 | four bytes survive decoding and re-encoding |
| JsNumbers.LittleEndianBytesOfValue | frontend/src/app/services/binary-websocket.service.ts:71 | the same for little-endian |
| JsNumbers.RelativeIndex | lidar-viewer/src/app/services/websocket/websocket.ts:97-99 | `slice` index resolution: the result is at most len, an index in [0, len] is kept, and a negative index reaching past the start becomes 0 |
| JsNumbers.JsSlice | lidar-viewer/src/app/services/websocket/websocket.ts:97-99 | `slice(b, e)` with indices in bounds is s[b..e]; the result is never longer than s |
| JsNumbers.JsSliceFrom | lidar-viewer/src/app/services/websocket/websocket.ts:111 | `slice(b)` with b in bounds is s[b..]; a negative b reaching past the start gives the whole of s |
| WebsocketFrames.FrameStep | lidar-viewer/src/app/services/websocket/websocket.ts:81-111 | one loop iteration: it waits while fewer than 4 bytes are buffered; a drop removes exactly the first 4+metaLen bytes; an emission consumes at least 4+metaLen bytes (the exact frame size is DecodeFrameRoundTrip and EmittedIsEncodedFrame) |
| WebsocketFrames.Decode | lidar-viewer/src/app/services/websocket/websocket.ts:81-112 | the loop as a whole, FrameStep repeated until it waits: the bytes left are never more than the bytes given |
| WebsocketFrames.DecodeUnfold | lidar-viewer/src/app/services/websocket/websocket.ts:81-112 | Decode is FrameStep followed by Decode of what is left |
| WebsocketFrames.ShortBufferWaits | lidar-viewer/src/app/services/websocket/websocket.ts:81 | nothing is decoded while fewer than 4 bytes are buffered |
| WebsocketFrames.StepExtends | lidar-viewer/src/app/services/websocket/websocket.ts:81-111 | a step that makes progress on a buffer makes the same progress on any extension of it |
| WebsocketFrames.DecodeAppend | lidar-viewer/src/app/services/websocket/websocket.ts:75-112 | decoding a then decoding what is left with b appended equals decoding a+b |
| WebsocketFrames.AppendAfterStep | lidar-viewer/src/app/services/websocket/websocket.ts:75-112 | the inductive step of DecodeAppend |
| WebsocketFrames.DecodeRestIsIdle | lidar-viewer/src/app/services/websocket/websocket.ts:81-95 | the loop stops on a buffer on which FrameStep waits |
| WebsocketFrames.FragmentationIndependence | lidar-viewer/src/app/services/websocket/websocket.ts:75-112 | any split of a byte string into fragments yields the same emitted chunks and remainder as delivering it whole |
| WebsocketFrames.EncodeFrame | lidar-viewer/src/app/services/websocket/websocket.ts:82-99 | the sender's layout: 4-byte big-endian length, metadata, positions, colours |
| WebsocketFrames.HeaderOfEncoded | lidar-viewer/src/app/services/websocket/websocket.ts:82 | the length read back from an encoded frame is the metadata length |
| WebsocketFrames.DecodeFrameRoundTrip | lidar-viewer/src/app/services/websocket/websocket.ts:82-111 | a well-formed frame at the front is emitted whole and exactly its bytes are consumed |
| WebsocketFrames.EmittedIsEncodedFrame | lidar-viewer/src/app/services/websocket/websocket.ts:82-111 | the converse: whatever a step emits is the decoding of a well-formed frame at the front of the buffer |
| WebsocketFrames.MalformedMetaDropped | lidar-viewer/src/app/services/websocket/websocket.ts:85-88 | metadata that fails to parse drops exactly 4+metaLen bytes and emits nothing |
| WebsocketFrames.DecodeStreamRoundTrip | lidar-viewer/src/app/services/websocket/websocket.ts:81-112 | a stream of well-formed frames decodes to their chunks in order and leaves nothing |
| WebsocketFrames.PartialFrameWaits | lidar-viewer/src/app/services/websocket/websocket.ts:83-95 | every proper prefix of a frame is left buffered with nothing emitted |
| WebsocketFrames.AsWrittenAgreesBelowTopBit | lidar-viewer/src/app/services/websocket/websocket.ts:82 | with byte 0 below 0x80, the signed reading as written behaves like the unsigned one |
| WebsocketFrames.MetaLengthAsWritten | lidar-viewer/src/app/services/websocket/websocket.ts:82 | the unsigned length when byte 0 is below 0x80, and that length minus 2^32, a negative number, otherwise |
| WebsocketFrames.FrameStepAsWritten | lidar-viewer/src/app/services/websocket/websocket.ts:81-111 | the iteration as written waits below 4 bytes, never leaves a longer buffer than it had (it may leave the same one: AsWrittenStalls), and drops only when the JS-sliced metadata does not parse |
| WebsocketFrames.AsWrittenStalls | lidar-viewer/src/app/services/websocket/websocket.ts:82-95 | with byte 0 at 0x80 or above and a buffer shorter than the negative length's magnitude, the iteration as written returns the buffer unchanged, so the `while` loop never ends |
| WebsocketFrames.AsWrittenStallExample | lidar-viewer/src/app/services/websocket/websocket.ts:82 | on the header 80 00 00 00 plus two bytes the step as written leaves the buffer unchanged and loops, while the unsigned step waits for more bytes |
| WebsocketServiceModel.MetasAppend | lidar-viewer/src/app/services/websocket/websocket.ts:108 | one more emitted chunk adds its metadata at the end of `meta$` |
| WebsocketServiceModel.FilesAppend | lidar-viewer/src/app/services/websocket/websocket.ts:102-106 | one more chunk adds its truthy file name to the files set, if it is new |
| WebsocketServiceModel.FilesOnlyGrow | lidar-viewer/src/app/services/websocket/websocket.ts:60-106 | merging names never removes or reorders an entry and never duplicates one |
| WebsocketServiceModel.WebsocketService.constructor | lidar-viewer/src/app/services/websocket/websocket.ts:19 | the buffer, files, emissions and status start empty |
| WebsocketServiceModel.WebsocketService.Disconnect | lidar-viewer/src/app/services/websocket/websocket.ts:39-44 | undecoded bytes are discarded (the buffer is empty) and nothing else about the decoded data changes |
| WebsocketServiceModel.WebsocketService.HandleText | lidar-viewer/src/app/services/websocket/websocket.ts:57-73 | a text message with a `files` list merges it into the files set; other JSON goes to `meta$`; the byte buffer is untouched |
| WebsocketServiceModel.WebsocketService.NextFrame | lidar-viewer/src/app/services/websocket/websocket.ts:81-99 | the loop body's decision equals FrameStep on the buffer |
| WebsocketServiceModel.WebsocketService.Publish | lidar-viewer/src/app/services/websocket/websocket.ts:102-109 | the emitted chunk joins `chunk$`, its metadata joins `meta$`, and its file name joins the files set |
| WebsocketServiceModel.WebsocketService.HandleBinary | lidar-viewer/src/app/services/websocket/websocket.ts:75-112 | after a fragment, the chunks, metadata, files and buffer are those of Decode on the old buffer plus the fragment |
| WebsocketServiceModel.WebsocketService.DrainFrames | lidar-viewer/src/app/services/websocket/websocket.ts:81-112 | the while loop emits exactly Decode's chunks and leaves Decode's remainder |
| BufferReaderModel.BufferReader.Remaining | lidar-viewer/src/app/utils/buffer-reader.ts:6 | bytes from the cursor to the end, never negative for a valid reader |
| BufferReaderModel.BufferReader.constructor | lidar-viewer/src/app/utils/buffer-reader.ts:4 | a new reader is at offset 0, so everything remains |
| BufferReaderModel.BufferReader.ReadUint32BE | lidar-viewer/src/app/utils/buffer-reader.ts:8-15 | with 4 bytes remaining: the big-endian value in [0, 2^32), offset advanced by exactly 4; otherwise a RangeError with the offset unchanged |
| BufferReaderModel.BufferReader.ReadBytes | lidar-viewer/src/app/utils/buffer-reader.ts:17-21 | with len bytes remaining: those bytes, offset advanced by len; a negative or too large len throws with the offset unchanged |
| BinaryWebsocket.ReadHeader | frontend/src/app/services/binary-websocket.service.ts:67-72 | a header exists exactly when 5 bytes and the metadata fit; its type is byte 0 and its length the little-endian u32 at bytes 1-4 |
| BinaryWebsocket.DecodeBinary | frontend/src/app/services/binary-websocket.service.ts:64-94 | a message comes out exactly when the header and metadata fit, the type byte is 0, 1 or 2 and the metadata parses; its kind follows the type byte, and positions and colours carry the bytes after 5+metaLen |
| BinaryWebsocket.OnMessage | frontend/src/app/services/binary-websocket.service.ts:50-96 | a JSON message comes out exactly for a string that parses; other messages only from an ArrayBuffer; anything else yields nothing |
| BinaryWebsocket.EncodePacket | frontend/src/app/services/binary-websocket.service.ts:67-76 | the packet layout: type byte, little-endian length, metadata, payload |
| BinaryWebsocket.HeaderOfPacket | frontend/src/app/services/binary-websocket.service.ts:67-72 | the header read from an encoded packet is its type and metadata length |
| BinaryWebsocket.DecodeEncodedPacket | frontend/src/app/services/binary-websocket.service.ts:67-90 | a packet whose metadata parses decodes to meta/positions/colors for types 0/1/2, with the payload after 5+metaLen; any other type yields nothing |
| BinaryWebsocket.BadMetaIgnored | frontend/src/app/services/binary-websocket.service.ts:74-94 | unparsable metadata yields no message, whatever the type and payload |
| BinaryWebsocket.DecodedIsEncodedPacket | frontend/src/app/services/binary-websocket.service.ts:67-90 | every decoded message comes from one packet layout with parsed metadata |
| BinaryWebsocket.ShortPacketIgnored | frontend/src/app/services/binary-websocket.service.ts:67-94 | a packet too short for its header or metadata yields nothing |
| BinaryWebsocket.TextMessages | frontend/src/app/services/binary-websocket.service.ts:54-61 | a text message yields one JSON message when it parses and none otherwise |
| PoolSpec.Zeros | frontend/src/app/components/point-cloud-viewer/point-cloud-viewer.ts:230-231 | `new Float32Array(n)`: n zeros |
| PoolSpec.PoolFloats | frontend/src/app/components/point-cloud-viewer/point-cloud-viewer.ts:53-229 | a pool's float capacity is max(3·capacityPoints, 6,000,000) |
| PoolSpec.NewPool | frontend/src/app/components/point-cloud-viewer/point-cloud-viewer.ts:227-249 | a new pool: both buffers zero-filled at PoolFloats, offset 0 |
| PoolSpec.CapacityPoints | frontend/src/app/components/point-cloud-viewer/point-cloud-viewer.ts:221-222 | expected points clamped to [200,000, 2,000,000], with 0 meaning 2,000,000 |
| PoolSpec.Overwrite | frontend/src/app/components/point-cloud-viewer/point-cloud-viewer.ts:371-374 | `dst.set(src, at)` replaces cells [at, at+\|src\|) and keeps every other cell and the length |
| PoolSpec.PointsOfCons | frontend/src/app/components/point-cloud-viewer/point-cloud-viewer.ts:418 | the points counted for a flush followed by further snapshots |
| PoolSpec.FlushEachCons | frontend/src/app/components/point-cloud-viewer/point-cloud-viewer.ts:504 | flushing the pools in order: the one at position i first, then the rest |
| PoolSpec.InsertWellFormed | frontend/src/app/components/point-cloud-viewer/point-cloud-viewer.ts:346-375 | insert keeps a pool well formed; capacity never shrinks; the colour buffer keeps its length |
| PoolSpec.InsertNothing | frontend/src/app/components/point-cloud-viewer/point-cloud-viewer.ts:346-350 | a chunk with no position floats changes nothing |
| PoolSpec.InsertFits | frontend/src/app/components/point-cloud-viewer/point-cloud-viewer.ts:371-375 | a chunk that fits is written at the offset, which advances by its length; no other cell changes and nothing is flushed |
| PoolSpec.InsertOverflows | frontend/src/app/components/point-cloud-viewer/point-cloud-viewer.ts:353-375 | a chunk that does not fit flushes the written part, grows the position buffer to max(2·capacity, n) zero-filled, the offset being 0 after the flush, then writes at offset 0 |
| PoolSpec.FlushResets | frontend/src/app/components/point-cloud-viewer/point-cloud-viewer.ts:397-421 | flush is a no-op at offset 0; otherwise the snapshot is the written range, floor(offset/3) points are counted and the offset returns to 0 with the buffers kept |
| PoolSpec.Flush | frontend/src/app/components/point-cloud-viewer/point-cloud-viewer.ts:397-421 | the offset returns to 0 with buffers and capacity kept; a snapshot comes out exactly when something was written, and holds the written positions |
| PoolSpec.Grow | frontend/src/app/components/point-cloud-viewer/point-cloud-viewer.ts:356-361 | the new capacity is at least twice the old and at least offset+n; the written prefix is kept, zeros follow, the colour buffer and offset are untouched |
| PoolSpec.Write | frontend/src/app/components/point-cloud-viewer/point-cloud-viewer.ts:369-375 | the positions land at the offset; the write succeeds exactly when there are no colours or they fit the colour buffer, and only then do the colours land in the same range and the offset advance by the positions |
| PoolSpec.Insert | frontend/src/app/components/point-cloud-viewer/point-cloud-viewer.ts:336-395 | the pool stays well formed, its capacity never shrinks and its colour buffer keeps its size; a flush happens only when a non-empty pool overflows; after a successful insert the chunk's positions are the last floats written |
| PoolSpec.FlushedCellsReused | frontend/src/app/components/point-cloud-viewer/point-cloud-viewer.ts:371-421 | the next chunk after a flush overwrites cells that the flushed snapshot still views |
| PoolSpec.ColourBufferNotRegrown | frontend/src/app/components/point-cloud-viewer/point-cloud-viewer.ts:357-373 | once the position buffer has outgrown the colour buffer, colours written past its end throw a RangeError |
| PointCloudViewerModel.EntryName | frontend/src/app/components/point-cloud-viewer/point-cloud-viewer.ts:219 | the first truthy of file_name/fileName/name/file, "" when none |
| PointCloudViewerModel.EntryExpected | frontend/src/app/components/point-cloud-viewer/point-cloud-viewer.ts:221 | the first non-zero of total_points/original_points/totalPoints, 0 when none |
| PointCloudViewerModel.PoolName | frontend/src/app/components/point-cloud-viewer/point-cloud-viewer.ts:338 | a chunk's pool is its file name, or "streamed" when that is empty |
| PointCloudViewerModel.PendingKey | frontend/src/app/components/point-cloud-viewer/point-cloud-viewer.ts:521 | the file name, `_`, then a tail without `_` (the start, printed) |
| PointCloudViewerModel.PendingKeyInjective | frontend/src/app/components/point-cloud-viewer/point-cloud-viewer.ts:521-536 | chunks of different files or starts park under different keys, even when a file name contains `_` |
| PointCloudViewerModel.Parked | frontend/src/app/components/point-cloud-viewer/point-cloud-viewer.ts:570-585 | at most one chunk per parked key, each with positions |
| PointCloudViewerModel.State | frontend/src/app/components/point-cloud-viewer/point-cloud-viewer.ts:43-51 | a pool entry's contents as a PoolSpec value |
| PointCloudViewerModel.StatesOf | frontend/src/app/components/point-cloud-viewer/point-cloud-viewer.ts:43-51 | the contents of every pool, with the same keys as the Map |
| PointCloudViewerModel.UsedParts | frontend/src/app/components/point-cloud-viewer/point-cloud-viewer.ts:403-409 | `subarray(0, writeOffset)` of both buffers equals the PoolSpec snapshot |
| PointCloudViewerModel.SetRange | frontend/src/app/components/point-cloud-viewer/point-cloud-viewer.ts:371 | the array after `set(src, at)` is Overwrite of its old contents |
| PointCloudViewerModel.WriteBuffers | frontend/src/app/components/point-cloud-viewer/point-cloud-viewer.ts:371-374 | positions then colours written as PoolSpec.Write says, `ok` false when the colour write throws |
| PointCloudViewerModel.GrownBuffer | frontend/src/app/components/point-cloud-viewer/point-cloud-viewer.ts:357-359 | a fresh buffer of the new capacity: the first offset floats copied, the rest zero |
| PointCloudViewerModel.NewPoolBuffers | frontend/src/app/components/point-cloud-viewer/point-cloud-viewer.ts:229-231 | two fresh distinct zero-filled buffers whose contents are NewPool |
| PointCloudViewerModel.Without | frontend/src/app/components/point-cloud-viewer/point-cloud-viewer.ts:624 | the key order after `delete`: the key removed, the others kept in order |
| PointCloudViewerModel.FirstNamed | frontend/src/app/components/point-cloud-viewer/point-cloud-viewer.ts:218-223 | the index of the first entry with a given name, \|files\| when none |
| PointCloudViewerModel.FirstNamedBound | frontend/src/app/components/point-cloud-viewer/point-cloud-viewer.ts:218-223 | FirstNamed over a prefix agrees with the whole list when the name occurs there |
| Drain.RunSnoc | frontend/src/app/components/point-cloud-viewer/point-cloud-viewer.ts:313-315 | one more insert continues the fold from the state the earlier inserts left; the run finished only when every insert did |
| Drain.RunAppend | frontend/src/app/components/point-cloud-viewer/point-cloud-viewer.ts:303-333 | inserting `a + b` is inserting `a`, then `b` from the state `a` left; it finished exactly when both parts did |
| Drain.StoppedAfter | frontend/src/app/components/point-cloud-viewer/point-cloud-viewer.ts:313-326 | inserts that all finished, followed by a run that stopped as `failed` says, stopped as `failed` says |
| Drain.StoppedLast | frontend/src/app/components/point-cloud-viewer/point-cloud-viewer.ts:313-326 | inserts that finished followed by one that threw make a run that failed at that chunk |
| Drain.BatchEnd | frontend/src/app/components/point-cloud-viewer/point-cloud-viewer.ts:305-306 | the end of the batch of four holding the n-th chunk is at least n, below n + 4 and a multiple of 4 |
| Drain.BatchEndAfter | frontend/src/app/components/point-cloud-viewer/point-cloud-viewer.ts:305-306 | after whole batches of four, the batch holding the k-th next chunk (1 <= k <= 4) ends 4 past them |
| Drain.BatchDone | frontend/src/app/components/point-cloud-viewer/point-cloud-viewer.ts:304-326 | a batch whose first k chunks went in (all of them unless the k-th threw) is one BatchStep: min(4, \|q\|) chunks leave the front of the queue |
| Drain.NothingToDrain | frontend/src/app/components/point-cloud-viewer/point-cloud-viewer.ts:331-332 | an empty queue is drained with nothing inserted and nothing failed |
| Drain.ProgressStart | frontend/src/app/components/point-cloud-viewer/point-cloud-viewer.ts:299-302 | a drain starts in step, with nothing inserted |
| Drain.DrainStep | frontend/src/app/components/point-cloud-viewer/point-cloud-viewer.ts:303-326 | a batch keeps a running drain in step; the batch that empties the queue or throws leaves it Drained: a prefix of the queue inserted in arrival order, the state the fold of those inserts, `failed` exactly when the last of them threw, the rest of that batch lost and the queue keeping what follows |
| Drain.DrainCounts | frontend/src/app/components/point-cloud-viewer/point-cloud-viewer.ts:305-306 | the counts across one batch: all of it taken when nothing threw, and a throw loses the rest of the batch of four |
| Drain.DrainRun | frontend/src/app/components/point-cloud-viewer/point-cloud-viewer.ts:303-326 | finished batches followed by one more batch are the fold over both, stopped as that batch stopped |
| PointCloudViewerModel.FlushedUpToStep | frontend/src/app/components/point-cloud-viewer/point-cloud-viewer.ts:504 | the flush-all loop has flushed one more pool |
| PointCloudViewerModel.LogAppend | frontend/src/app/components/point-cloud-viewer/point-cloud-viewer.ts:314-316 | the insert log after one more chunk of a batch |
| PointCloudViewerModel.ConsistentOffset | frontend/src/app/components/point-cloud-viewer/point-cloud-viewer.ts:375-421 | moving a pool's offset within its capacity keeps the viewer invariant |
| PointCloudViewerModel.StatesOfOffset | frontend/src/app/components/point-cloud-viewer/point-cloud-viewer.ts:375-421 | moving a pool's offset changes only that pool's contents |
| PointCloudViewerModel.ConsistentReplace | frontend/src/app/components/point-cloud-viewer/point-cloud-viewer.ts:358-361 | a pool taking a fresh position buffer keeps the invariant |
| PointCloudViewerModel.ConsistentAdd | frontend/src/app/components/point-cloud-viewer/point-cloud-viewer.ts:241-248 | a new pool with buffers of its own joins at the end of the Map order |
| PointCloudViewerModel.PoolsOwnedAdd | frontend/src/app/components/point-cloud-viewer/point-cloud-viewer.ts:241-248 | a new pool keeps buffers unshared between pools |
| PointCloudViewerModel.PoolsOwnedOffset | frontend/src/app/components/point-cloud-viewer/point-cloud-viewer.ts:375-421 | an offset change keeps buffers unshared |
| PointCloudViewerModel.PoolsOwnedReplace | frontend/src/app/components/point-cloud-viewer/point-cloud-viewer.ts:358-361 | a buffer replacement keeps buffers unshared |
| PointCloudViewerModel.PreparedStep | frontend/src/app/components/point-cloud-viewer/point-cloud-viewer.ts:218-223 | an unnamed entry changes nothing; a named one adds its pool unless the name already has one |
| PointCloudViewerModel.PointCloudViewer.constructor | frontend/src/app/components/point-cloud-viewer/point-cloud-viewer.ts:43-70 | no pools, an empty queue, no current metadata, nothing parked, nothing in the scene |
| PointCloudViewerModel.PointCloudViewer.StartBinaryStream | frontend/src/app/components/point-cloud-viewer/point-cloud-viewer.ts:476-478 | the current metadata and the parked chunks are reset; pools, queue and scene are unchanged |
| PointCloudViewerModel.PointCloudViewer.CreatePoolIfNotExists | frontend/src/app/components/point-cloud-viewer/point-cloud-viewer.ts:227-249 | an existing pool is left untouched; otherwise NewPool(capacityPoints) joins at the end of the Map |
| PointCloudViewerModel.PointCloudViewer.AddPool | frontend/src/app/components/point-cloud-viewer/point-cloud-viewer.ts:241-248 | the Map gains the entry, which owns its two buffers |
| PointCloudViewerModel.PointCloudViewer.PreparePoolsFromMetadata | frontend/src/app/components/point-cloud-viewer/point-cloud-viewer.ts:217-225 | every named file gets a pool sized CapacityPoints(expected), unless it already had one; queue, pairing and scene are unchanged |
| PointCloudViewerModel.PointCloudViewer.PrepareEntry | frontend/src/app/components/point-cloud-viewer/point-cloud-viewer.ts:219-223 | one iteration of the prepare loop |
| PointCloudViewerModel.PointCloudViewer.FlushPoolToScene | frontend/src/app/components/point-cloud-viewer/point-cloud-viewer.ts:397-421 | nothing for an unknown pool; otherwise the pool changes as PoolSpec.Flush says, its snapshot joins the scene and its points are counted |
| PointCloudViewerModel.PointCloudViewer.Commit | frontend/src/app/components/point-cloud-viewer/point-cloud-viewer.ts:413-421 | the snapshot joins the scene, the points are added to the total, and the offset returns to 0 |
| PointCloudViewerModel.PointCloudViewer.SetOffset | frontend/src/app/components/point-cloud-viewer/point-cloud-viewer.ts:375 | the pool's offset is set; its buffers and every other pool are unchanged |
| PointCloudViewerModel.PointCloudViewer.GrowPool | frontend/src/app/components/point-cloud-viewer/point-cloud-viewer.ts:357-361 | the pool's contents become PoolSpec.Grow of the old ones |
| PointCloudViewerModel.PointCloudViewer.ReplacePool | frontend/src/app/components/point-cloud-viewer/point-cloud-viewer.ts:360-361 | the pool takes the new buffer and capacity, which it now owns |
| PointCloudViewerModel.PointCloudViewer.WritePool | frontend/src/app/components/point-cloud-viewer/point-cloud-viewer.ts:371-375 | the pool's contents become PoolSpec.Write of the old ones |
| PointCloudViewerModel.PointCloudViewer.InsertChunkIntoPool | frontend/src/app/components/point-cloud-viewer/point-cloud-viewer.ts:336-395 | the pools and the scene become InsertInto of the old ones and `ok` is its outcome; the chunk joins the insert log; the queue and the frame pairing stay |
| PointCloudViewerModel.PointCloudViewer.InsertIntoNewPool | frontend/src/app/components/point-cloud-viewer/point-cloud-viewer.ts:340-344 | a missing pool is created, then the chunk is inserted into it |
| PointCloudViewerModel.PointCloudViewer.DoBatch | frontend/src/app/components/point-cloud-viewer/point-cloud-viewer.ts:303-330 | one BatchStep: min(4, \|queue\|) chunks leave the front of the queue and a prefix of them is inserted in order, the pools and scene becoming the fold of InsertInto over it; the drain failed exactly when the last of them threw, and otherwise the whole batch went in; `more` (the next batch scheduled) exactly when nothing threw and the queue is not empty |
| PointCloudViewerModel.PointCloudViewer.InsertBatchChunk | frontend/src/app/components/point-cloud-viewer/point-cloud-viewer.ts:313-315 | after j chunks that went in, the (j+1)-th is inserted and logged: the pools and scene are the fold over j + 1 chunks, and the batch failed exactly when this insert threw |
| PointCloudViewerModel.PointCloudViewer.ProcessBufferedChunks | frontend/src/app/components/point-cloud-viewer/point-cloud-viewer.ts:299-334 | a call during a drain changes nothing; otherwise the queue ends Drained: a prefix of it inserted in arrival order, the pools and scene the fold of InsertInto over that prefix, failed exactly when its last insert threw (the rest of that batch of four lost), and otherwise the queue empty |
| PointCloudViewerModel.PointCloudViewer.FlushAll | frontend/src/app/components/point-cloud-viewer/point-cloud-viewer.ts:504 | every pool in Map order is flushed: all offsets return to 0, and the scene gains FlushEach of the old contents |
| PointCloudViewerModel.PointCloudViewer.FlushOne | frontend/src/app/components/point-cloud-viewer/point-cloud-viewer.ts:504 | one iteration of the flush-all loop |
| PointCloudViewerModel.PointCloudViewer.OnText | frontend/src/app/components/point-cloud-viewer/point-cloud-viewer.ts:487-510 | `chunk_meta` with a meta sets the current metadata; `complete` flushes all pools; anything else changes nothing |
| PointCloudViewerModel.PointCloudViewer.OnBinary | frontend/src/app/components/point-cloud-viewer/point-cloud-viewer.ts:511-539 | no current metadata or a length that is not a whole number of floats: nothing. No colour: the chunk joins the queue, which is drained (pools and scene as ProcessBufferedChunks says), and the metadata is cleared. Colour: the positions are parked under `file_start`, replacing earlier ones; pools, queue and scene stay |
| PointCloudViewerModel.PointCloudViewer.AttachColorsToPending | frontend/src/app/components/point-cloud-viewer/point-cloud-viewer.ts:614-626 | no parked chunk: nothing happens; colour bytes that are not a whole number of floats: nothing changes and `ok` is false; otherwise the parked chunk takes the colours, leaves the parked set, joins the queue and the queue is drained as ProcessBufferedChunks says |
| PointCloudViewerModel.PointCloudViewer.OnClose | frontend/src/app/components/point-cloud-viewer/point-cloud-viewer.ts:570-585 | every parked chunk with positions joins the queue in key order, the parked set is emptied and the queue is drained as ProcessBufferedChunks says |
| PointCloudViewerModel.PointCloudViewer.InsertIntoPool | frontend/src/app/components/point-cloud-viewer/point-cloud-viewer.ts:346-375 | insert into an existing pool, as PoolSpec.Insert says |
| PointCloudViewerModel.PointCloudViewer.GrowAndWrite | frontend/src/app/components/point-cloud-viewer/point-cloud-viewer.ts:353-375 | the overflow branch: flush, grow, then write |
| PointCloudViewerModel.PointCloudViewer.MakeRoom | frontend/src/app/components/point-cloud-viewer/point-cloud-viewer.ts:353-361 | flush the pool to the scene, then grow its position buffer |
| PointCloudViewerModel.InsertInto | frontend/src/app/components/point-cloud-viewer/point-cloud-viewer.ts:336-395 | insertChunkIntoPool on values: the chunk's pool exists afterwards and the pool names gain only its name, every other pool is unchanged, the scene keeps its snapshots and gains at most one, and an insert throws only for a chunk with colours and points |
| PointCloudViewerModel.PointCloudViewer.LogInsert | frontend/src/app/components/point-cloud-viewer/point-cloud-viewer.ts:313-315 | the chunk joins the insert log; the pools, the scene, the queue and the pairing stay |
| PointCloudViewerModel.PointCloudViewer.InsertIntoOwnPool | frontend/src/app/components/point-cloud-viewer/point-cloud-viewer.ts:346-375 | a chunk whose file has a pool: the pools and scene become InsertInto of the old ones |
| PointCloudViewerModel.PointCloudViewer.InsertIntoFreshPool | frontend/src/app/components/point-cloud-viewer/point-cloud-viewer.ts:338-344 | a chunk whose file has no pool: one is created, and the pools and scene become InsertInto of the old ones |
| PointCloudViewerModel.PointCloudViewer.InsertBatch | frontend/src/app/components/point-cloud-viewer/point-cloud-viewer.ts:313-315 | the chunks of a batch go in order until one throws: the first k of them are logged, the pools and scene are their fold, and `ok` false exactly when the k-th threw (k = \|batch\| otherwise) |
| PointCloudViewerModel.PointCloudViewer.SetDrainState | frontend/src/app/components/point-cloud-viewer/point-cloud-viewer.ts:300-330 | the queue, the busy flag and the failure take the given values; the pools, the scene, the log and the pairing stay |
| PointCloudViewerModel.PointCloudViewer.DrainOnce | frontend/src/app/components/point-cloud-viewer/point-cloud-viewer.ts:303-326 | one scheduled doBatch of a running drain: the queue gets shorter, and the drain stays in step or ends Drained |
| PointCloudViewerModel.PointCloudViewer.DrainRunning | frontend/src/app/components/point-cloud-viewer/point-cloud-viewer.ts:317-322 | each doBatch schedules the next while the queue is not empty and nothing threw: a drain in step ends Drained |
| PointCloudViewerModel.PointCloudViewer.EnqueueAndDrain | frontend/src/app/components/point-cloud-viewer/point-cloud-viewer.ts:525-526 | `push` then processBufferedChunks: the drain runs from the longer queue as ProcessBufferedChunks says; the pairing stays |
| PointCloudViewerModel.PointCloudViewer.SetPairing | frontend/src/app/components/point-cloud-viewer/point-cloud-viewer.ts:583 | the current metadata and the parked chunks take the given values; the pools, the scene and the queue stay |
| PointCloudViewerModel.PointCloudViewer.Unpark | frontend/src/app/components/point-cloud-viewer/point-cloud-viewer.ts:624 | `delete partialPending[key]`: the parked chunk is returned and leaves the parked set and its order; nothing else changes |
| PointCloudViewerModel.PointCloudViewer.AttachAndDrain | frontend/src/app/components/point-cloud-viewer/point-cloud-viewer.ts:621-625 | the parked chunk takes the colours, leaves the parked set, joins the queue, and the queue is drained as ProcessBufferedChunks says |
| StreamBufferModel.Override | frontend/src/app/utils/stream-buffer.ts:6-12 | a truthy (non-zero) option overrides the default, and an absent or zero one does not |
| StreamBufferModel.FlattenAppend | frontend/src/app/utils/stream-buffer.ts:28-31 | the chunks of one more batch follow those already delivered |
| StreamBufferModel.StreamBuffer.constructor | frontend/src/app/utils/stream-buffer.ts:3-13 | empty buffer, no timer, maxChunks 5 and flushTimeout 120 unless overridden |
| StreamBufferModel.StreamBuffer.Flush | frontend/src/app/utils/stream-buffer.ts:25-35 | the timer is cancelled; an empty buffer calls nothing; otherwise the callback gets all buffered chunks in order and the buffer empties |
| StreamBufferModel.StreamBuffer.AddChunk | frontend/src/app/utils/stream-buffer.ts:15-23 | the chunk is appended; reaching maxChunks flushes at once, otherwise a flush is scheduled; nothing is lost or reordered |
| StreamBufferModel.StreamBuffer.OnTimer | frontend/src/app/utils/stream-buffer.ts:22 | the scheduled flush |
| StreamBufferModel.StreamBuffer.Clear | frontend/src/app/utils/stream-buffer.ts:37-40 | the buffer empties without calling the callback |
| StreamBufferModel.AddAll | frontend/src/app/utils/stream-buffer.ts:15-35 | the delivered batches followed by the buffer are exactly the added chunks, and fewer than maxChunks remain buffered |
| OctreeModel.PointCount | lidar-viewer/src/app/utils/octree.ts:38 | `points.length / 3`: non-negative, three times it is the length |
| OctreeModel.TotalWithinBudget | lidar-viewer/src/app/utils/octree.ts:23-49 | whatever chunks are offered, the total stays in [0, 5,000,000], and three times it is the summed length of the accepted chunks |
| OctreeModel.FirstChunk | lidar-viewer/src/app/utils/octree.ts:40 | a fresh octree admits a chunk exactly when it has at most 15,000,000 floats |
| OctreeModel.TotalAfterStep | lidar-viewer/src/app/utils/octree.ts:37-49 | one more offered chunk moves the total as insertChunk does |
| OctreeModel.OctreeNode.constructor | lidar-viewer/src/app/utils/octree.ts:9-17 | box, points and colours as given; no children |
| OctreeModel.Concat | lidar-viewer/src/app/utils/octree.ts:64-69 | the result has length \|a\|+\|b\|, begins with a and ends with b |
| OctreeModel.Octree.constructor | lidar-viewer/src/app/utils/octree.ts:7-35 | an empty root spanning ±1e9 on every axis, with a total of 0 |
| OctreeModel.Octree.InsertChunk | lidar-viewer/src/app/utils/octree.ts:37-50 | rejected and unchanged exactly when total+length/3 exceeds 5,000,000; otherwise both buffers are appended and the total grows by length/3 |
| OctreeModel.Octree.CollectLOD | lidar-viewer/src/app/utils/octree.ts:52-62 | a node with points appends its buffers as one entry each; otherwise both lists are unchanged; children are never visited |
| DataProcessorWorker.FlatPoints | frontend/src/app/workers/data-processor.worker.ts:23-31 | length 3·\|points\|, with position 3i+k the k-th coordinate of point i, 0 when missing |
| DataProcessorWorker.Normalise | frontend/src/app/workers/data-processor.worker.ts:46 | a colour triple comes out as a triple; which triples are scaled is NormaliseScalesExactly |
| DataProcessorWorker.RowColors | frontend/src/app/workers/data-processor.worker.ts:43-47 | one row gives exactly three channels |
| DataProcessorWorker.FirstMissing | frontend/src/app/workers/data-processor.worker.ts:42-43 | the index of the first missing colour row (where reading a channel throws): every row before it is present |
| DataProcessorWorker.Rendered | frontend/src/app/workers/data-processor.worker.ts:42-48 | rows that are all present give three channels each |
| DataProcessorWorker.Zeros | frontend/src/app/workers/data-processor.worker.ts:24-40 | a fresh Float32Array of length n: n zeros |
| DataProcessorWorker.NestedColors | frontend/src/app/workers/data-processor.worker.ts:39-48 | the colour buffer has three places per row; its contents are NestedColorsLayout |
| DataProcessorWorker.RenderedLayout | frontend/src/app/workers/data-processor.worker.ts:42-48 | row t occupies places 3t..3t+2 |
| DataProcessorWorker.NestedColorsAt | frontend/src/app/workers/data-processor.worker.ts:42-48 | the places of a row before the first missing one hold its normalised channels |
| DataProcessorWorker.NestedColorsLayout | frontend/src/app/workers/data-processor.worker.ts:39-48 | the whole colour buffer's layout |
| DataProcessorWorker.FileName | frontend/src/app/workers/data-processor.worker.ts:59 | file_name, else fileName, else 'unk' |
| DataProcessorWorker.RefsOf | frontend/src/app/workers/data-processor.worker.ts:72-75 | a reply entry contributes its non-null positions, then colours |
| DataProcessorWorker.PositionsTakePrecedence | frontend/src/app/workers/data-processor.worker.ts:18-23 | a truthy positions field means points is never read |
| DataProcessorWorker.TotalPointsRule | frontend/src/app/workers/data-processor.worker.ts:60 | total_points is positions.length/3 when there are positions, otherwise `f.total_points \|\| 0` |
| DataProcessorWorker.PositionsErrorDropsColors | frontend/src/app/workers/data-processor.worker.ts:17-56 | a throw in the positions part leaves both buffers null |
| DataProcessorWorker.NormaliseScalesExactly | frontend/src/app/workers/data-processor.worker.ts:46 | a triple is scaled exactly when some channel exceeds 1 |
| DataProcessorWorker.NormaliseIntoUnitRange | frontend/src/app/workers/data-processor.worker.ts:46 | channels in [0, 255] come out in [0, 1] |
| DataProcessorWorker.TransferComplete | frontend/src/app/workers/data-processor.worker.ts:71-75 | the transfer list holds exactly the buffers the reply carries |
| DataProcessorWorker.TransferOrdered | frontend/src/app/workers/data-processor.worker.ts:71-75 | the transfer list is in file order, positions before colours, with no repeated (file, slot); buffer identity is not modelled (see Left out) |
| DataProcessorWorker.FlattenPoints | frontend/src/app/workers/data-processor.worker.ts:24-31 | the loop with a running index fills FlatPoints |
| DataProcessorWorker.ReadColor | frontend/src/app/workers/data-processor.worker.ts:43-46 | the channels of one row equal Normalise of them |
| DataProcessorWorker.FillNestedColors | frontend/src/app/workers/data-processor.worker.ts:40-48 | the loop fills NestedColors |
| DataProcessorWorker.NormaliseFile | frontend/src/app/workers/data-processor.worker.ts:14-67 | the reply entry of one file |
| DataProcessorWorker.TransferList | frontend/src/app/workers/data-processor.worker.ts:71-75 | the loop collects the transfer list |
| DataProcessorWorker.ProcessBatchFiles | frontend/src/app/workers/data-processor.worker.ts:9-77 | one reply entry per input file, in order, with its transfer list |
| DataProcessorWorker.HandleMessage | frontend/src/app/workers/data-processor.worker.ts:3-83 | no reply for a missing message or another type; a non-array files field gives an empty reply |
| PointCloudWorker.Kept | frontend/src/app/workers/point-cloud.worker.ts:38-48 | the kept points among the first n are at most n, and every one is valid |
| PointCloudWorker.GeometryPositions | frontend/src/app/workers/point-cloud.worker.ts:61-68 | three slots per point |
| PointCloudWorker.GeometryColors | frontend/src/app/workers/point-cloud.worker.ts:62-74 | three slots per point |
| PointCloudWorker.GeometryLayout | frontend/src/app/workers/point-cloud.worker.ts:64-75 | coordinate k of point i sits at 3i+k in both buffers |
| PointCloudWorker.GeometryStep | frontend/src/app/workers/point-cloud.worker.ts:64-75 | one more point extends both buffers by its three places |
| PointCloudWorker.KeptExactly | frontend/src/app/workers/point-cloud.worker.ts:38-102 | the kept points are exactly the valid ones, in their original order |
| PointCloudWorker.ColorsWithinPoints | frontend/src/app/workers/point-cloud.worker.ts:45-47 | each kept colour belongs to a kept point, so colours never outnumber points |
| PointCloudWorker.ProcessedCounts | frontend/src/app/workers/point-cloud.worker.ts:51-55 | processedCount is the kept count and at most originalCount; colours are null when none are kept |
| PointCloudWorker.ProcessPointCloudData | frontend/src/app/workers/point-cloud.worker.ts:28-58 | the filtering loop returns ProcessedSpec |
| PointCloudWorker.CreateBufferGeometry | frontend/src/app/workers/point-cloud.worker.ts:60-82 | positions of length 3n in point order; a colour array exactly when colours are given; pointCount n |
| PointCloudWorker.WritePoint | frontend/src/app/workers/point-cloud.worker.ts:65-74 | one iteration of the geometry loop |
| PointCloudWorker.WritePosition | frontend/src/app/workers/point-cloud.worker.ts:66-68 | positions[3i+k] = point[k], other slots unchanged |
| PointCloudWorker.WriteColor | frontend/src/app/workers/point-cloud.worker.ts:70-74 | colour slots of point i written when colors[i] exists, others unchanged |
| PointCloudWorker.CalculatePointNormals | frontend/src/app/workers/point-cloud.worker.ts:84-97 | 3n values, every triple (0, 0, 1) |
| PointCloudWorker.HandleRequest | frontend/src/app/workers/point-cloud.worker.ts:3-26 | one response per known request type, none otherwise: processing returns ProcessedSpec; a geometry has a position triple per point, colour triples (GeometryColors) exactly when colours are given, and the point count; normals are 3n values, each triple (0, 0, 1) |
| LazService.OptimalBatchSize | frontend/src/app/services/laz-service.ts:159-164 | the batch size is one of 10, 20, 30, 50 |
| LazService.BatchSizeBands | frontend/src/app/services/laz-service.ts:159-164 | each size belongs to exactly one band of targets, with all bounds strict |
| LazService.BatchSizeAntitone | frontend/src/app/services/laz-service.ts:159-164 | a larger target never gets a larger batch |
| LazService.LoadAllFilesWithConfig | frontend/src/app/services/laz-service.ts:143-157 | a request always carries the target points; the choice by flags is DispatchByFlags |
| LazService.DispatchByFlags | frontend/src/app/services/laz-service.ts:148-155 | streaming fails whatever the other flag; the request kind follows the progressive flag |
| LazProcessor.EffectiveChunkSize | backend/laz_processor.py:21-272 | a missing or non-positive chunk size becomes 200,000; a positive one is kept |
| LazProcessor.CeilingDivision | backend/laz_processor.py:291 | the ceiling quotient is the least number of chunks that covers the total |
| LazProcessor.SlicesPartition | backend/laz_processor.py:297-306 | the slices are contiguous, non-empty, at most csize long, ordered, and cover [idx, total) |
| LazProcessor.SlicesEnds | backend/laz_processor.py:297-306 | first and last bounds and the size of each slice |
| LazProcessor.SlicesMeet | backend/laz_processor.py:297-306 | consecutive slices meet and every slice but the last is full |
| LazProcessor.SlicesLength | backend/laz_processor.py:297-306 | there are ceil((total−idx)/csize) slices |
| LazProcessor.SlicesCount | backend/laz_processor.py:291-306 | for a non-empty file the slice count is `est_total_chunks` |
| LazProcessor.SliceRanges | backend/laz_processor.py:297-306 | the `_slice_iter` loop yields exactly Slices(total, csize, 0) |
| LazProcessor.Interleave | backend/laz_processor.py:332-347 | the interleaved buffer has 3n places |
| LazProcessor.InterleaveLayout | backend/laz_processor.py:332-336 | place 3i+k holds element i of channel k |
| LazProcessor.InterleaveFromLayout | backend/laz_processor.py:332-336 | a buffer laid out channel by channel is the interleaving |
| LazProcessor.StridedAssign | backend/laz_processor.py:333-335 | `out[k::3] = src` writes the k-th places and no others |
| LazProcessor.InterleaveInto | backend/laz_processor.py:332-336 | the three strided assignments produce Interleave |
| LazProcessor.Scale | backend/laz_processor.py:344-347 | a scaled channel keeps its length |
| LazProcessor.StepChunk | backend/laz_processor.py:311-378 | a chunk raises exactly when its y or z array cannot fill the x slots; an empty chunk yields nothing; start advances by the chunk size; a yielded item carries the current start and chunk index |
| LazProcessor.StepColors | backend/laz_processor.py:314-370 | colours travel with a chunk exactly when `has_color` is true for it, and meta `has_color` says so |
| LazProcessor.ErrorSticks | backend/laz_processor.py:382-385 | once the loop has raised, later chunks change nothing |
| LazProcessor.AppendInPlace | backend/laz_processor.py:361-376 | an item numbered and placed after the others keeps every item in place |
| LazProcessor.RunCounters | backend/laz_processor.py:328-376 | item j has chunk_index j and starts at the sum of earlier counts; the counters end at the item count and the point sum |
| LazProcessor.CountsAddUp | backend/laz_processor.py:320-378 | without an error, the items account for every point of the chunks read |
| LazProcessor.RangeTotalSpan | backend/laz_processor.py:297-306 | contiguous ranges add up to the distance they span |
| LazProcessor.ChunkSizesMatchRanges | backend/laz_processor.py:301-306 | with an exact reader, the chunks hold as many points as the ranges |
| LazProcessor.StreamItems | backend/laz_processor.py:262-385 | a missing or empty file raises before anything is yielded; every yielded item is well formed and in place |
| LazProcessor.StreamDeliversEveryPoint | backend/laz_processor.py:289-385 | a stream read range by range that ends without error yields every point exactly once, in order of start |
| LazProcessor.ProcessChunk | backend/laz_processor.py:313-378 | the loop body equals StepChunk |
| LazProcessor.StreamChunksBinary | backend/laz_processor.py:262-385 | the items yielded, in order, and the error raised, equal Stream |
| Preprocess.TileIndexBounds | backend/preprocess.py:22-23 | tx·100 ≤ a < (tx+1)·100 for tx = floor_div(a, 100) |
| Preprocess.FloorDivMonotone | backend/preprocess.py:22-23 | floor_div is monotonic in the dividend |
| Preprocess.PointInsideItsTile | backend/preprocess.py:95-125 | a point lies inside the square of the tile it is binned into |
| Preprocess.Filter | backend/preprocess.py:89-100 | a tile's filtered list is never longer than the input; FilterSound and EachPointInOneTile say which points it holds |
| Preprocess.FilterSound | backend/preprocess.py:95-100 | only points binned into k are in its list |
| Preprocess.EachPointInOneTile | backend/preprocess.py:89-100 | each input point lands in its own tile's list and in no other |
| Preprocess.TotalInUpdate | backend/preprocess.py:84-100 | the tile-size total after one list changes |
| Preprocess.Truncated | backend/preprocess.py:15-121 | at most 5,000,000 points per tile, namely the first ones |
| Preprocess.LocalCoordinatesInTile | backend/preprocess.py:127-130 | local x and y of a binned point lie in [0, 100) |
| Preprocess.RelativeAll | backend/preprocess.py:127-130 | one shifted point per input point |
| Preprocess.WriteTile | backend/preprocess.py:113-140 | the in-place shift of the kept points gives WrittenTile |
| Preprocess.WrittenTileIsWrittenAs | backend/preprocess.py:113-140 | a written tile has id `"tx_ty"`, origin (minx+tx·100, miny+ty·100, minz), points = the truncated count, and the shifted first points |
| Preprocess.WrittenTiles | backend/preprocess.py:110-140 | one written tile per key |
| Preprocess.WrittenTileIsLocal | backend/preprocess.py:123-130 | a tile written from its own points holds local x and y in [0, 100) |
| Preprocess.AddKeeps | backend/preprocess.py:95-100 | appending a point keeps the dict invariants and adds one to the total |
| Preprocess.BinAllKeyed | backend/preprocess.py:89-100 | binning keeps the dict invariants and counts every point once |
| Preprocess.BinAllContents | backend/preprocess.py:89-100 | each tile's list gains exactly its binned points, after the earlier ones |
| Preprocess.Flat | backend/preprocess.py:75-77 | the files' points one file after the other, as many as the files hold |
| Preprocess.BinAllAppend | backend/preprocess.py:89-100 | binning `a + b` is binning `a` and then `b` |
| Preprocess.OrderAllAppend | backend/preprocess.py:89-100 | the key order after binning `a + b` is that after binning `a` and then `b` |
| Preprocess.BinAllBinned | backend/preprocess.py:89-100 | every stored point is in the tile it is binned into |
| Preprocess.LazPreprocessor.constructor | backend/preprocess.py:35-50 | no tiles and a total of 0 |
| Preprocess.LazPreprocessor.AddPoint | backend/preprocess.py:95-100 | the point joins the end of its tile's list, and a new key goes last |
| Preprocess.LazPreprocessor.ProcessFile | backend/preprocess.py:84-100 | the total grows by the file's count and the lists become BinAll of the file |
| Preprocess.LazPreprocessor.ProcessFiles | backend/preprocess.py:75-102 | the tile lists and key order become those of binning the files' points one file after the other (BinAll and OrderAll of their concatenation, so BinAllContents gives each tile's list); the total grows by the files' point count; the invariant is kept |
| Preprocess.WriteAll | backend/preprocess.py:113-137 | the loop over the tile dict writes exactly WrittenTiles of the keys: one tile per key, in key order |
| Preprocess.LazPreprocessor.WriteTiles | backend/preprocess.py:108-142 | the written tiles are WrittenTiles of the key order, and the tiler's state is unchanged |
| Preprocess.LazPreprocessor.WriteTilesAsWritten | backend/preprocess.py:110-140 | tile i of the output is key i written as WrittenAs, with at most 5,000,000 points |
| Preprocess.LazPreprocessor.WrittenIdsDistinct | backend/preprocess.py:111-140 | under the tiler's invariant the written tiles have pairwise different ids, so the dict keyed by tile id that `write_tiles` returns loses no entry |
| DatasetRoute.IdsOf | backend/routes/dataset.py:35 | one id per key |
| DatasetRoute.RowKeysExactly | backend/routes/dataset.py:34-37 | the inner loop lists exactly the existing tiles of the column, in ascending ty |
| DatasetRoute.GridKeysExactly | backend/routes/dataset.py:33-37 | the nested loops list exactly the existing tiles of the box, ordered by tx then ty |
| DatasetRoute.IdsOfContains | backend/routes/dataset.py:35 | an id is listed exactly when its key is |
| DatasetRoute.IdsOfSorted | backend/routes/dataset.py:33-37 | ids of strictly ordered keys have no duplicates |
| DatasetRoute.GridKeysNoColumns | backend/routes/dataset.py:33 | an empty ty range (no columns) lists nothing, whatever the tx range |
| DatasetRoute.GridListsExactly | backend/routes/dataset.py:31-39 | the listed ids are exactly the existing tiles of the box, ordered, once each |
| DatasetRoute.TilesForBboxExactly | backend/routes/dataset.py:22-39 | a zero tile size fails; otherwise the result lists exactly the existing tiles with tx and ty in the inclusive ranges, by tx then ty, without duplicates, and nothing for an inverted box |
| DatasetRoute.PointTileIsListed | backend/routes/dataset.py:26-37 | with 100 m tiles, the existing tile that contains a point of the box is listed |
| DatasetRoute.GetTilesForBbox | backend/routes/dataset.py:13-39 | the route returns TilesForBbox |
| DatasetRoute.ScanGrid | backend/routes/dataset.py:33-37 | the outer loop fills IdsOf(GridKeys) |
| DatasetRoute.ScanRow | backend/routes/dataset.py:34-37 | the inner loop appends IdsOf(RowKeys) |
| SpatialIndex.MatchingExactly | backend/spatial_index.py:24-30 | an id is matched exactly when its origin's x and y lie in the closed box; the result is a subsequence of the table |
| SpatialIndex.Matching | backend/spatial_index.py:24-30 | never longer than the table, and every match is a table key whose origin lies in the box (the converse is MatchingExactly) |
| SpatialIndex.SubsequenceNoDuplicates | backend/spatial_index.py:26-29 | a subsequence of a dict's keys has no duplicates |
| SpatialIndex.SpatialIndex.constructor | backend/spatial_index.py:12-16 | `tiles_dir` is root + "/tiles" and the table is the given dict |
| SpatialIndex.SpatialIndex.TilePathInjective | backend/spatial_index.py:18-19 | for ids without `/`, distinct ids get distinct paths, each `tiles_dir/<id>.bin` |
| SpatialIndex.SpatialIndex.TilePath | backend/spatial_index.py:18-19 | `tiles_dir`, `/`, the id and `.bin`, with the id recoverable from between them |
| SpatialIndex.SpatialIndex.TilePathsOfTileIds | backend/spatial_index.py:18-19 | the `"tx_ty"` tiles the tiler writes get pairwise different files |
| SpatialIndex.SpatialIndex.TileMetaOf | backend/spatial_index.py:21-22 | the stored entry for a known id, None otherwise |
| SpatialIndex.SpatialIndex.Query | backend/spatial_index.py:24-30 | the loop returns Matching over the table |
| SpatialIndex.SpatialIndex.QueryExactly | backend/spatial_index.py:24-30 | the result is exactly the tiles with origin in the closed box (z ignored), in table order, once each, each with an entry |
| Common.UniqueProperties | lidar-viewer/src/app/services/websocket/websocket.ts:60-64 | the set of a list keeps exactly its elements, each once |
| Common.UniquePrefix | lidar-viewer/src/app/services/websocket/websocket.ts:60-106 | adding elements never removes or reorders earlier ones |
| Common.UniqueFixedPoint | lidar-viewer/src/app/services/websocket/websocket.ts:60-64 | a list is its own set exactly when it has no duplicates |
| Common.IntToStringInjective | backend/routes/dataset.py:35 | distinct integers print differently |
| Common.TileIdInjective | backend/preprocess.py:113-115 | distinct tile coordinates get distinct `"tx_ty"` ids |
| Common.TileId | backend/preprocess.py:113 | an id `"tx_ty"` never holds a path separator |
| Common.IntToString | backend/routes/dataset.py:35 | at least one character, digits and a minus sign only, never `_` |
| Common.DigitsValueOfNatToString | backend/preprocess.py:113-115 | reading back a formatted natural gives the number |

## Left out

- Sockets, EventSource, fetch, HTTP routes and the connection lifecycle are not modelled. Each handler is a method called with the message it receives.
- The Blob branch of the viewer's `onmessage` (frontend/src/app/components/point-cloud-viewer/point-cloud-viewer.ts:540-563) is not modelled; it repeats the ArrayBuffer path asynchronously.
- Rendering is not modelled: Three.js scene, geometry, materials, `needsUpdate`, `updateMapInfo` and `clearScene`. A flush is recorded as the snapshot it hands to the scene.
- Float32 rounding is not modelled: floats are reals, and byte-to-float decoding is a parameter.
- JSON.parse and TextDecoder are not modelled: they are parser parameters returning None where they throw.
- The scheduling between batches (`requestIdleCallback`/`setTimeout`) and the StreamBuffer timer are not modelled. The drain runs as a loop; the timer is an explicit `OnTimer` call.
- The flushed snapshot is a value. The model states separately (PoolSpec.FlushedCellsReused) that the real subarray is overwritten by later writes.
- PointCloudViewerModel.PointCloudViewer.OnText: the `awaitingMeta`/`lastWasMeta` flags are not modelled. They are written but never read.
- PointCloudViewerModel.PointCloudViewer.InsertChunkIntoPool: `meta.count` is an integer, so the NaN capacity of a missing count is not modelled.
- PointCloudViewerModel.PointCloudViewer.InsertChunkIntoPool: the `pointsObj` bookkeeping of lines 377-394 is not modelled; it is rendering.
- PointCloudWorker.ProcessPointCloudData: `reductionPercentage` is not modelled. It is floating point and divides by zero on empty input.
- PointCloudWorker: the validity test `isValidPoint` is a predicate parameter, since it is `isFinite` on floats.
- DataProcessorWorker.NormaliseFile: `Number(...)` conversion of non-numeric entries is not modelled. Channels are reals or missing.
- Numbers in the viewers' metadata are integers or reals, without NaN.
- LazService.LoadAllFilesWithConfig: the request is returned as a value. The HTTP calls behind `getProgressiveData` and `getAllDataForLargeVolumes` are not modelled.
- LazProcessor.StreamChunksBinary: the progress percentage, timings, memory and CPU figures of the metadata are not modelled.
- LazProcessor.StreamChunksBinary: `tobytes()` serialisation, and the laspy reader behind the chunk iterator, are not modelled. The chunk iterator is a parameter.
- LazProcessor.StreamChunksBinary: the laziness of the generator is not modelled. The stream is the list of items up to the first error.
- Preprocess: `scan_bounds`, `write_metadata` (the JSON file) and `run` are not modelled; they are file I/O over laspy. The global minimum is a constructor parameter.
- Preprocess.LazPreprocessor.WriteTiles: the float32 cast of the written points is not modelled.
- SpatialIndex.SpatialIndex.constructor: reading `metadata.json` is not modelled. The parsed tiles dict is given as its keys in insertion order plus a map.
- DatasetRoute.GetTilesForBbox: the metadata load is not modelled; the parsed metadata is a parameter. A zero tile size is modelled as the error Python's `//` raises.
- The `get_tile` and `get_metadata` routes are not modelled. They are file I/O.
- Preprocess.LazPreprocessor.ProcessFiles: the points of each file are a parameter, standing for a working `load_laz` and `extract_points`. As written, backend/preprocess.py:7 imports `LazProcessor`, but backend/laz_processor.py:17 defines `LAZProcessor`, and that class has neither `load_laz` nor `extract_points`. The import therefore fails before any file is read (the same import is in backend/dataset_loader.py:5 and backend/stream_processor.py:2). The model describes the tiler as it would run with working versions of those names.
- DatasetRoute.GetTilesForBbox: the parsed metadata is a parameter, standing for a working `load_metadata`. As written, backend/routes/dataset.py:6 calls `DatasetLoader()` without the `data_dir` argument its constructor requires (backend/dataset_loader.py:19), and DatasetLoader defines no `load_metadata`. The route module therefore fails when it is imported. The model describes the route as it would run with a working loader.
- WebsocketFrames.FrameStep: the metadata `count` is a natural number. The source reads `meta.count || 0` from arbitrary JSON. A negative count makes the position byte count negative, so `slice(start + posBytes + colorBytes)` rewinds into the frame: with count -2 and 20 metadata bytes it is `slice(0)`, and the same chunk is emitted forever. Metadata that parses to `null` makes `meta.count` throw a TypeError outside the `try`, so the frame stays buffered and every later message throws at the same place. The metadata parser here returns a ChunkMeta or nothing, so neither behaviour is modelled.
- SpatialIndex.SpatialIndex.TilePath: paths are strings joined with `/`. pathlib's normalisation is not modelled: `./` and `//` are collapsed, and an absolute id replaces `tiles_dir`. TilePath is the path the source builds only for ids without `/`, such as the `"tx_ty"` ids the tiler writes (Common.TileId), and TilePathInjective is stated for those ids.
- DataProcessorWorker.TransferOrdered: transferred buffers are identified by (file, slot). `new Float32Array(f.positions)` wraps the incoming ArrayBuffer without copying. Two fields or files that are views of one buffer therefore list it twice in `transfer`, `postMessage` throws a DataCloneError and no reply is sent. Buffer identity and aliasing of the inputs are not modelled.
- OctreeModel.Octree.CollectLOD: the source pushes into the caller's `positions` and `colors` arrays; the model returns the extended lists as values, with the same contents and order, so the caller's arrays being updated in place (and any aliasing of them) is not captured.

## Findings

| source | as written | input that shows it | evidently intended | confidence | as-written member | corrected member |
|---|---|---|---|---|---|---|
| lidar-viewer/src/app/services/websocket/websocket.ts:82 | the metadata length is built with `<<` and `\|`, which give a signed 32-bit result, so a first byte of 0x80 or more gives a negative length | a buffer holding the header 80 00 00 00 followed by two bytes. As written the length is -2^31: the metadata slice is empty, JSON.parse throws, and `slice(4 + metaLen)` returns the whole buffer, so the `while` loop repeats forever. An unsigned reading waits for more bytes | read the length unsigned (`>>> 0`, as `BufferReader.readUint32BE` does) | not executed | WebsocketFrames.AsWrittenStallExample | WebsocketFrames.FrameStep |

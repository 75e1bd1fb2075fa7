/** The frontend point-cloud viewer's streaming state (point-cloud-viewer.ts): one
    growable pool per file, the queue of completed chunks and its batched drain, and
    the pairing of binary frames with the metadata that announced them. Rendering
    (scenes, geometries, materials, the live per-pool Points objects) is not modelled:
    what a flush gives the scene is recorded in `flushed`. */
module PointCloudViewerModel {
  import opened Common
  import opened PoolSpec
  import opened Drain

  /** The `meta` object of a `chunk_meta` text message. */
  datatype BinaryChunkMeta = BinaryChunkMeta(fileName: string, start: int, count: int, totalPoints: int, hasColor: bool)

  /** A chunk on its way to a pool; positions and colours are optional fields. */
  datatype PendingChunk = PendingChunk(meta: BinaryChunkMeta, positions: Option<seq<real>>, colors: Option<seq<real>>)

  /** The fields of a parsed text message that the handler consults: its `type`, and
      its `meta` when that is present. */
  datatype ViewerJson = ViewerJson(kind: string, meta: Option<BinaryChunkMeta>)

  /** A file description handed to preparePoolsFromMetadata; "" and 0 stand for absent
      (falsy) fields. */
  datatype FileEntry = FileEntry(
    file_name: string, fileName: string, name: string, file: string,
    total_points: int, original_points: int, totalPoints: int)

  /** The first truthy of the four name fields, "" when all are empty. */
  function EntryName(f: FileEntry): (n: string)
    ensures n == "" <==> f.file_name == "" && f.fileName == "" && f.name == "" && f.file == ""
  {
    if f.file_name != "" then f.file_name
    else if f.fileName != "" then f.fileName
    else if f.name != "" then f.name
    else f.file
  }

  /** The first non-zero of the three count fields, 0 when all are zero. */
  function EntryExpected(f: FileEntry): (e: int)
    ensures e == 0 <==> f.total_points == 0 && f.original_points == 0 && f.totalPoints == 0
  {
    if f.total_points != 0 then f.total_points
    else if f.original_points != 0 then f.original_points
    else f.totalPoints
  }

  /** The pool a chunk goes to: its file name, or "streamed" when that is empty. */
  function PoolName(meta: BinaryChunkMeta): (n: string)
    ensures n != ""
  {
    if meta.fileName != "" then meta.fileName else "streamed"
  }

  /** The positions of a chunk, none when absent. */
  function PositionsOf(c: PendingChunk): seq<real> {
    if c.positions.Some? then c.positions.value else []
  }

  /** `${file_name}_${start}`: where a coloured chunk's positions wait for its colours. */
  function PendingKey(meta: BinaryChunkMeta): (k: string)
    ensures |k| > |meta.fileName| && k[..|meta.fileName| + 1] == meta.fileName + "_"
    ensures '_' !in k[|meta.fileName| + 1..]
  {
    var k := meta.fileName + "_" + IntToString(meta.start);
    assert k[|meta.fileName| + 1..] == IntToString(meta.start);
    k
  }

  /** Chunks of different files, or of one file at different starts, park under
      different keys, even where a file name itself contains `_`. */
  lemma PendingKeyInjective(m: BinaryChunkMeta, m': BinaryChunkMeta)
    requires PendingKey(m) == PendingKey(m')
    ensures m.fileName == m'.fileName && m.start == m'.start
  {
    SplitAtLastSeparator(m.fileName, IntToString(m.start), m'.fileName, IntToString(m'.start));
    IntToStringInjective(m.start, m'.start);
  }

  /** The size a pool created by insertChunkIntoPool is given, in points. */
  function InsertPoolPoints(meta: BinaryChunkMeta): int {
    Max(meta.count, MIN_POOL_POINTS)
  }

  /** One entry of `filePools`. The entry is only ever reached through the Map, so it
      is held as a value that the viewer's methods replace; the buffers are arrays. */
  datatype PoolRec = PoolRec(posBuffer: array<real>, colorBuffer: array<real>, writeOffset: nat, capacity: nat)

  /** The position buffer holds `capacity` floats and the written part fits in it. */
  predicate Shaped(p: PoolRec) {
    p.posBuffer.Length == p.capacity && p.writeOffset <= p.capacity
  }

  /** An entry as createPoolIfNotExists makes it for `capacityPoints` points: both
      buffers of PoolFloats(capacityPoints) floats, nothing written. */
  predicate SizedFor(p: PoolRec, capacityPoints: int) {
    && p.writeOffset == 0 && p.capacity == PoolFloats(capacityPoints)
    && p.posBuffer.Length == p.capacity && p.colorBuffer.Length == p.capacity
  }

  /** The contents of a pool entry. */
  ghost function State(p: PoolRec): (s: PoolState)
    reads p.posBuffer, p.colorBuffer
    ensures Shaped(p) ==> Wf(s)
  {
    PoolState(p.posBuffer[..], p.colorBuffer[..], p.writeOffset, p.capacity)
  }

  /** The contents of every pool entry. */
  ghost function StatesOf(pools: map<string, PoolRec>): (st: map<string, PoolState>)
    reads set n | n in pools :: pools[n].posBuffer
    reads set n | n in pools :: pools[n].colorBuffer
    ensures st.Keys == pools.Keys && forall n :: n in pools ==> st[n] == State(pools[n])
  {
    map n | n in pools :: State(pools[n])
  }

  /** The written parts of a pool's buffers, as `subarray(0, writeOffset)` cuts them. */
  method UsedParts(p: PoolRec) returns (snap: Snapshot)
    requires Shaped(p) && p.writeOffset > 0
    ensures Flush(State(p)) == (Some(snap), State(p.(writeOffset := 0)))
    ensures |snap.positions| == p.writeOffset
  {
    var wo := p.writeOffset;
    snap := Snapshot(p.posBuffer[..wo], p.colorBuffer[..Min(wo, p.colorBuffer.Length)]);
  }

  /** `typedArray.set(src, at)` for a source that fits. */
  method SetRange(a: array<real>, at: nat, src: seq<real>)
    requires at + |src| <= a.Length
    modifies a
    ensures a[..] == Overwrite(old(a[..]), at, src)
  {
    forall i | 0 <= i < |src| {
      a[at + i] := src[i];
    }
  }

  /** The two `set` calls of a write into a pool with room; `ok` is false when the
      colour buffer is too short, and then only the positions were written. The
      caller moves the offset when `ok`. */
  method WriteBuffers(p: PoolRec, positions: seq<real>, colors: Option<seq<real>>) returns (ok: bool)
    requires Shaped(p) && p.posBuffer != p.colorBuffer && p.writeOffset + |positions| <= p.capacity
    modifies p.posBuffer, p.colorBuffer
    ensures var w := Write(old(State(p)), positions, colors);
      && ok == w.1
      && State(p.(writeOffset := w.0.writeOffset)) == w.0
  {
    var wo := p.writeOffset;
    SetRange(p.posBuffer, wo, positions);
    if colors.Some? {
      if wo + |colors.value| > p.colorBuffer.Length {
        return false;
      }
      SetRange(p.colorBuffer, wo, colors.value);
    }
    ok := true;
  }

  /** `new Float32Array(cap)` with `set(src.subarray(0, wo), 0)`: the first `wo` floats
      of `src`, then zeros up to `cap`. */
  method GrownBuffer(src: array<real>, wo: nat, cap: nat) returns (a: array<real>)
    requires wo <= src.Length && wo <= cap
    ensures fresh(a) && a.Length == cap
    ensures a[..] == src[..wo] + Zeros(cap - wo)
  {
    a := new real[cap](_ => 0.0);
    forall i | 0 <= i < wo {
      a[i] := src[i];
    }
  }

  /** The buffers of a new pool: both zero-filled at the same size. */
  method NewPoolBuffers(capacityPoints: int) returns (p: PoolRec)
    ensures fresh(p.posBuffer) && fresh(p.colorBuffer) && p.posBuffer != p.colorBuffer && Shaped(p)
    ensures State(p) == NewPool(capacityPoints)
  {
    var f := PoolFloats(capacityPoints);
    var pos := new real[f](_ => 0.0);
    var colors := new real[f](_ => 0.0);
    assert pos[..] == Zeros(f);
    assert colors[..] == Zeros(f);
    p := PoolRec(pos, colors, 0, f);
  }

  /** The parked chunks that onclose moves to the queue, in key order: those that have
      positions, with their colours if any. */
  function Parked(order: seq<string>, pending: map<string, PendingChunk>): (r: seq<PendingChunk>)
    requires forall k :: k in order ==> k in pending
    ensures |r| <= |order|
    ensures forall c :: c in r ==> c.positions.Some?
    decreases |order|
  {
    if |order| == 0 then []
    else
      var p := pending[order[|order| - 1]];
      Parked(order[..|order| - 1], pending) + (if p.positions.Some? then [p] else [])
  }

  /** `s` without the occurrences of `k`. */
  function Without(s: seq<string>, k: string): (r: seq<string>)
    ensures forall x :: x in r <==> x in s && x != k
    decreases |s|
  {
    if |s| == 0 then []
    else Without(s[..|s| - 1], k) + (if s[|s| - 1] == k then [] else [s[|s| - 1]])
  }

  class PointCloudViewer {
    /** `new Float32Array(buffer)` for binary frames. */
    const decodeFloats: FloatDecoder

    /** `filePools`; `poolOrder` is the Map's insertion order. */
    var filePools: map<string, PoolRec>
    var poolOrder: seq<string>
    /** The pool each buffer was allocated for: two pools never share a buffer. */
    ghost var owner: map<array<real>, string>

    var incomingQueue: seq<PendingChunk>
    var processingQueue: bool

    var currentMeta: Option<BinaryChunkMeta>
    /** `partialPending`; `pendingOrder` is the order in which Object.keys lists it. */
    var partialPending: map<string, PendingChunk>
    var pendingOrder: seq<string>

    var totalPoints: int
    /** Every snapshot flushPoolToScene added to the scene, oldest first. */
    var flushed: seq<Snapshot>

    /** Every chunk handed to insertChunkIntoPool, oldest first. */
    ghost var inserted: seq<PendingChunk>
    /** The current drain stopped in the catch block of doBatch. */
    ghost var drainFailed: bool

    ghost predicate Valid()
      reads this
    {
      Consistent(filePools, poolOrder, owner, partialPending, pendingOrder)
    }

    /** The pools and the scene as values. */
    ghost function Contents(): (s: WfScene)
      requires Valid()
      reads this, set n | n in filePools :: filePools[n].posBuffer, set n | n in filePools :: filePools[n].colorBuffer
    {
      Scene(StatesOf(filePools), poolOrder, flushed, totalPoints)
    }

    /** After a drain that started with queue `q0`, log `ins0` and pools and scene
        `s0` (`busy0` when a drain was already running): a running drain is left alone
        and nothing changes; otherwise the drain went as Drained says. */
    ghost predicate DrainedFrom(q0: seq<PendingChunk>, ins0: seq<PendingChunk>, s0: WfScene, busy0: bool)
      requires Valid()
      reads this, set n | n in filePools :: filePools[n].posBuffer, set n | n in filePools :: filePools[n].colorBuffer
    {
      if busy0 then incomingQueue == q0 && inserted == ins0 && processingQueue && Contents() == s0
      else
        && !processingQueue
        && Drained(InsertInto, q0, ins0, s0, incomingQueue, inserted, Contents(), drainFailed)
    }

    /** A drain from `q0`, `ins0`, `s0` that is still `running` is in step (Progress);
        one that stopped is drained (Drained). */
    ghost predicate DrainState(q0: seq<PendingChunk>, ins0: seq<PendingChunk>, s0: WfScene, running: bool)
      requires Valid()
      reads this, set n | n in filePools :: filePools[n].posBuffer, set n | n in filePools :: filePools[n].colorBuffer
    {
      if running then
        && processingQueue && !drainFailed && incomingQueue != []
        && Progress(InsertInto, q0, ins0, s0, incomingQueue, inserted, Contents())
      else !processingQueue && Drained(InsertInto, q0, ins0, s0, incomingQueue, inserted, Contents(), drainFailed)
    }

    /** Every buffer owned now was owned before or has just been allocated. */
    twostate predicate BuffersFresh()
      reads this
    {
      forall a :: a in owner ==> a in old(owner) || fresh(a)
    }

    /** The queue and its drain state are as they were. */
    twostate predicate QueueUnchanged()
      reads this
    {
      && incomingQueue == old(incomingQueue) && processingQueue == old(processingQueue)
      && inserted == old(inserted) && drainFailed == old(drainFailed)
    }

    /** The binary pairing state is as it was. */
    twostate predicate PairingUnchanged()
      reads this
    {
      currentMeta == old(currentMeta) && partialPending == old(partialPending) && pendingOrder == old(pendingOrder)
    }

    /** Nothing more went to the scene. */
    twostate predicate SceneUnchanged()
      reads this
    {
      totalPoints == old(totalPoints) && flushed == old(flushed)
    }

    /** The pool entries are as they were (their buffers' contents aside). */
    twostate predicate PoolsUnchanged()
      reads this
    {
      filePools == old(filePools) && poolOrder == old(poolOrder) && owner == old(owner)
    }

    constructor (decodeFloats: FloatDecoder)
      ensures Valid() && this.decodeFloats == decodeFloats
      ensures filePools == map[] && poolOrder == [] && incomingQueue == [] && !processingQueue
      ensures currentMeta == None && partialPending == map[] && pendingOrder == []
      ensures totalPoints == 0 && flushed == [] && inserted == []
    {
      this.decodeFloats := decodeFloats;
      filePools := map[];
      poolOrder := [];
      owner := map[];
      incomingQueue := [];
      processingQueue := false;
      currentMeta := None;
      partialPending := map[];
      pendingOrder := [];
      totalPoints := 0;
      flushed := [];
      inserted := [];
      drainFailed := false;
    }

    /** The stream-state reset of startBinaryStream (the socket is not modelled). */
    method StartBinaryStream()
      requires Valid()
      modifies this
      ensures Valid()
      ensures currentMeta == None && partialPending == map[] && pendingOrder == []
      ensures PoolsUnchanged() && QueueUnchanged() && SceneUnchanged()
    {
      currentMeta := None;
      partialPending := map[];
      pendingOrder := [];
    }

    /** An existing pool is left alone; otherwise a new empty pool sized for
        `capacityPoints` points is added at the end of the Map. */
    method CreatePoolIfNotExists(fileName: string, capacityPoints: int)
      requires Valid()
      modifies this
      ensures Valid()
      ensures fileName in filePools
      ensures BuffersFresh()
      ensures fileName in old(filePools) ==> filePools == old(filePools) && poolOrder == old(poolOrder)
      ensures fileName !in old(filePools) ==>
        && filePools == old(filePools)[fileName := filePools[fileName]]
        && fresh(filePools[fileName].posBuffer) && fresh(filePools[fileName].colorBuffer)
        && State(filePools[fileName]) == NewPool(capacityPoints)
        && SizedFor(filePools[fileName], capacityPoints)
        && poolOrder == old(poolOrder) + [fileName]
      ensures QueueUnchanged() && PairingUnchanged() && SceneUnchanged()
    {
      if fileName in filePools {
        return;
      }
      var pool := NewPoolBuffers(capacityPoints);
      AddPool(fileName, pool);
    }

    /** A new entry joins the pools, owning its two buffers. */
    method AddPool(fileName: string, pool: PoolRec)
      requires Valid() && fileName !in filePools
      requires Shaped(pool) && pool.posBuffer != pool.colorBuffer && pool.posBuffer !in owner && pool.colorBuffer !in owner
      modifies this
      ensures Valid()
      ensures filePools == old(filePools)[fileName := pool] && poolOrder == old(poolOrder) + [fileName]
      ensures owner == old(owner)[pool.posBuffer := fileName][pool.colorBuffer := fileName]
      ensures QueueUnchanged() && PairingUnchanged() && SceneUnchanged()
    {
      ConsistentAdd(filePools, poolOrder, owner, partialPending, pendingOrder, fileName, pool);
      filePools := filePools[fileName := pool];
      poolOrder := poolOrder + [fileName];
      owner := owner[pool.posBuffer := fileName][pool.colorBuffer := fileName];
    }

    /** A pool for every named file, sized by CapacityPoints of its expected count; a
        file whose name is already pooled (earlier in the list, or before the call) keeps
        its pool. */
    method PreparePoolsFromMetadata(files: seq<FileEntry>)
      requires Valid()
      modifies this
      ensures Valid() && Prepared(filePools, files, |files|, old(filePools))
      ensures QueueUnchanged() && PairingUnchanged() && SceneUnchanged()
    {
      var i := 0;
      while i < |files|
        invariant 0 <= i <= |files|
        invariant Valid() && Prepared(filePools, files, i, old(filePools))
        invariant QueueUnchanged() && PairingUnchanged() && SceneUnchanged()
      {
        PrepareEntry(files, i, old(filePools));
        i := i + 1;
      }
    }

    /** One iteration of preparePoolsFromMetadata: entry `i` gets a pool if it is named. */
    method PrepareEntry(files: seq<FileEntry>, i: nat, ghost pools0: map<string, PoolRec>)
      requires i < |files| && Valid() && Prepared(filePools, files, i, pools0)
      modifies this
      ensures Valid() && Prepared(filePools, files, i + 1, pools0)
      ensures QueueUnchanged() && PairingUnchanged() && SceneUnchanged()
    {
      var name := EntryName(files[i]);
      ghost var before := filePools;
      if name != "" {
        CreatePoolIfNotExists(name, CapacityPoints(EntryExpected(files[i])));
      }
      PreparedStep(before, filePools, files, i, pools0);
    }

    /** Nothing for an unknown pool or an empty one; otherwise the written range goes
        to the scene, its points are counted and the offset returns to 0, the buffers
        and the capacity staying as they are. `s` is the pool's contents. */
    method FlushPoolToScene(fileName: string, ghost s: PoolState)
      requires Valid() && (fileName in filePools ==> State(filePools[fileName]) == s)
      modifies this
      ensures Valid() && owner == old(owner) && poolOrder == old(poolOrder)
      ensures fileName !in filePools ==> filePools == old(filePools) && flushed == old(flushed) && totalPoints == old(totalPoints)
      ensures fileName in old(filePools) ==>
        && Wf(s)
        && filePools == old(filePools)[fileName := old(filePools)[fileName].(writeOffset := 0)]
        && flushed == old(flushed) + SnapshotList(Flush(s).0)
        && totalPoints == old(totalPoints) + Counted(Flush(s).0)
      ensures QueueUnchanged() && PairingUnchanged()
    {
      if fileName !in filePools {
        return;
      }
      if filePools[fileName].writeOffset == 0 {
        return;
      }
      var snap := UsedParts(filePools[fileName]);
      Commit(fileName, snap);
    }

    /** The end of a flush: the snapshot goes to the scene with its points counted,
        and the pool's offset returns to 0. */
    method Commit(fileName: string, snap: Snapshot)
      requires Valid() && fileName in filePools
      modifies this
      ensures Valid() && owner == old(owner) && poolOrder == old(poolOrder)
      ensures filePools == old(filePools)[fileName := old(filePools)[fileName].(writeOffset := 0)]
      ensures flushed == old(flushed) + [snap] && totalPoints == old(totalPoints) + Counted(Some(snap))
      ensures QueueUnchanged() && PairingUnchanged()
    {
      flushed := flushed + [snap];
      totalPoints := totalPoints + |snap.positions| / 3;
      SetOffset(fileName, 0);
    }

    /** `pool.writeOffset = wo`. */
    method SetOffset(fileName: string, wo: nat)
      requires Valid() && fileName in filePools && wo <= filePools[fileName].capacity
      modifies this
      ensures Valid() && owner == old(owner) && poolOrder == old(poolOrder)
      ensures filePools == old(filePools)[fileName := old(filePools)[fileName].(writeOffset := wo)]
      ensures QueueUnchanged() && PairingUnchanged() && SceneUnchanged()
    {
      ConsistentOffset(filePools, poolOrder, owner, partialPending, pendingOrder, fileName, wo);
      filePools := filePools[fileName := filePools[fileName].(writeOffset := wo)];
    }

    /** The position buffer of pool `name` is replaced by a zero-filled one of
        PoolSpec.Grow's size holding the written part; the colour buffer stays. */
    method GrowPool(name: string, n: nat)
      requires Valid() && name in filePools
      modifies this
      ensures Valid() && poolOrder == old(poolOrder)
      ensures filePools == old(filePools)[name := filePools[name]]
      ensures fresh(filePools[name].posBuffer) && filePools[name].colorBuffer == old(filePools[name].colorBuffer)
      ensures State(filePools[name]) == Grow(old(State(filePools[name])), n)
      ensures owner == old(owner)[filePools[name].posBuffer := name]
      ensures QueueUnchanged() && PairingUnchanged() && SceneUnchanged()
    {
      var p := filePools[name];
      var wo := p.writeOffset;
      var cap := Max(2 * p.capacity, wo + n);
      var newPos := GrownBuffer(p.posBuffer, wo, cap);
      ReplacePool(name, p.(posBuffer := newPos, capacity := cap));
    }

    /** Pool `name` takes a new position buffer (and capacity), which it now owns. */
    method ReplacePool(name: string, p: PoolRec)
      requires Valid() && name in filePools && p.posBuffer !in owner
      requires Shaped(p) && p.colorBuffer == filePools[name].colorBuffer
      modifies this
      ensures Valid() && poolOrder == old(poolOrder)
      ensures filePools == old(filePools)[name := p] && owner == old(owner)[p.posBuffer := name]
      ensures QueueUnchanged() && PairingUnchanged() && SceneUnchanged()
    {
      ConsistentReplace(filePools, poolOrder, owner, partialPending, pendingOrder, name, p);
      filePools := filePools[name := p];
      owner := owner[p.posBuffer := name];
    }

    /** The copy into pool `name`, which has room: positions at the write offset, then
        the colours at the same place, which throws when the colour buffer is too short
        (`ok` false); the offset moves only when nothing threw. */
    method WritePool(name: string, positions: seq<real>, colors: Option<seq<real>>) returns (ok: bool)
      requires Valid() && name in filePools
      requires filePools[name].writeOffset + |positions| <= filePools[name].capacity
      modifies this, filePools[name].posBuffer, filePools[name].colorBuffer
      ensures Valid() && owner == old(owner) && poolOrder == old(poolOrder)
      ensures filePools == old(filePools)[name := filePools[name]]
      ensures filePools[name].posBuffer == old(filePools[name].posBuffer)
      ensures filePools[name].colorBuffer == old(filePools[name].colorBuffer)
      ensures var w := Write(old(State(filePools[name])), positions, colors);
        State(filePools[name]) == w.0 && ok == w.1
      ensures QueueUnchanged() && PairingUnchanged() && SceneUnchanged()
    {
      var p := filePools[name];
      ok := WriteBuffers(p, positions, colors);
      if ok {
        SetOffset(name, p.writeOffset + |positions|);
      }
    }

    /** insertChunkIntoPool: the chunk joins the insert log, and the pools and the
        scene become what InsertInto makes of them: the chunk's pool (created for
        max(count, 200000) points and added last when missing) changes as
        PoolSpec.Insert says, the snapshot a full pool gives up goes to the scene,
        and `ok` is false exactly when the colour write threw. */
    method InsertChunkIntoPool(chunk: PendingChunk) returns (ok: bool)
      requires Valid()
      modifies this, owner.Keys
      ensures Valid() && BuffersFresh()
      ensures var r := InsertInto(old(Contents()), chunk); Contents() == r.0 && ok == r.1
      ensures inserted == old(inserted) + [chunk]
      ensures incomingQueue == old(incomingQueue) && processingQueue == old(processingQueue)
      ensures drainFailed == old(drainFailed) && PairingUnchanged()
    {
      if PoolName(chunk.meta) in filePools {
        ok := InsertIntoOwnPool(chunk);
      } else {
        ok := InsertIntoFreshPool(chunk);
      }
      LogInsert(chunk);
    }

    /** The chunk joins the insert log; nothing else changes. */
    method LogInsert(chunk: PendingChunk)
      requires Valid()
      modifies this
      ensures Valid() && PoolsUnchanged() && PairingUnchanged() && Contents() == old(Contents())
      ensures inserted == old(inserted) + [chunk]
      ensures incomingQueue == old(incomingQueue) && processingQueue == old(processingQueue)
      ensures drainFailed == old(drainFailed)
    {
      inserted := inserted + [chunk];
      assert filePools == old(filePools);
      assert StatesOf(filePools) == old(StatesOf(filePools));
    }

    /** insertChunkIntoPool when the chunk's file has a pool. */
    method InsertIntoOwnPool(chunk: PendingChunk) returns (ok: bool)
      requires Valid() && PoolName(chunk.meta) in filePools
      modifies this, filePools[PoolName(chunk.meta)].posBuffer, filePools[PoolName(chunk.meta)].colorBuffer
      ensures Valid() && BuffersFresh()
      ensures var r := InsertInto(old(Contents()), chunk); Contents() == r.0 && ok == r.1
      ensures QueueUnchanged() && PairingUnchanged()
    {
      var name := PoolName(chunk.meta);
      ghost var pools0 := filePools;
      ghost var st0 := StatesOf(filePools);
      ok := InsertIntoPool(name, PositionsOf(chunk), chunk.colors, State(filePools[name]));
      StatesOfOne(st0, pools0, filePools, name);
    }

    /** insertChunkIntoPool when the chunk's file has no pool yet. */
    method InsertIntoFreshPool(chunk: PendingChunk) returns (ok: bool)
      requires Valid() && PoolName(chunk.meta) !in filePools
      modifies this
      ensures Valid() && BuffersFresh()
      ensures var r := InsertInto(old(Contents()), chunk); Contents() == r.0 && ok == r.1
      ensures QueueUnchanged() && PairingUnchanged()
    {
      var name := PoolName(chunk.meta);
      ghost var pools0 := filePools;
      ghost var st0 := StatesOf(filePools);
      ok := InsertIntoNewPool(name, InsertPoolPoints(chunk.meta), PositionsOf(chunk), chunk.colors);
      StatesOfOne(st0, pools0, filePools, name);
    }

    /** insertChunkIntoPool for a file without a pool: one is created for
        `capacityPoints` points and the chunk goes into it. */
    method InsertIntoNewPool(name: string, capacityPoints: int, positions: seq<real>, colors: Option<seq<real>>)
      returns (ok: bool)
      requires Valid() && name !in filePools
      modifies this
      ensures Valid() && BuffersFresh()
      ensures var o := Insert(NewPool(capacityPoints), positions, colors);
        && name in filePools
        && State(filePools[name]) == o.pool && ok == o.ok
        && flushed == old(flushed) + SnapshotList(o.snapshot)
        && totalPoints == old(totalPoints) + Counted(o.snapshot)
      ensures poolOrder == old(poolOrder) + [name] && filePools == old(filePools)[name := filePools[name]]
      ensures QueueUnchanged() && PairingUnchanged()
    {
      CreatePoolIfNotExists(name, capacityPoints);
      ghost var pools1 := filePools;
      ok := InsertIntoPool(name, positions, colors, NewPool(capacityPoints));
      UpdateTwice(old(filePools), name, pools1[name], filePools[name]);
    }

    /** One run of doBatch: up to four chunks leave the front of the queue and are
        inserted in order. A throwing insert ends the batch and the drain (the rest of
        the batch is lost); otherwise the drain goes on while the queue is not empty. */
    method DoBatch() returns (more: bool)
      requires Valid() && processingQueue && !drainFailed
      modifies this, owner.Keys
      ensures Valid() && BuffersFresh() && PairingUnchanged()
      ensures BatchStep(InsertInto, old(incomingQueue), old(inserted), old(Contents()), incomingQueue, inserted, Contents(), drainFailed)
      ensures more == processingQueue && |incomingQueue| == |old(incomingQueue)| - Min(4, |old(incomingQueue)|)
      ensures more ==> !drainFailed && incomingQueue != []
      ensures !more ==> drainFailed || incomingQueue == []
    {
      ghost var q := incomingQueue;
      ghost var s0 := Contents();
      var b := Min(4, |incomingQueue|);
      var batch := incomingQueue[..b];
      if b == 0 {
        SetDrainState(incomingQueue, false, false);
        BatchDone(InsertInto, q, old(inserted), s0, 0, false);
        return false;
      }
      // The inserts do not read the queue, so the splice is written back once the
      // batch is done.
      var rest := incomingQueue[b..];
      var ok, k := InsertBatch(batch, old(inserted), s0);
      BatchDone(InsertInto, q, old(inserted), s0, k, !ok);
      if !ok {
        SetDrainState(rest, false, true);
        return false;
      }
      more := rest != [];
      SetDrainState(rest, more, false);
    }

    /** The loop of doBatch: the chunks of `batch` are inserted in order until one
        throws (`ok` false, `k` chunks handed over) or all are in (`k` = |batch|). */
    method InsertBatch(batch: seq<PendingChunk>, ghost ins0: seq<PendingChunk>, ghost s0: WfScene)
      returns (ok: bool, ghost k: nat)
      requires Valid() && inserted == ins0 && Contents() == s0
      modifies this, owner.Keys
      ensures Valid() && BuffersFresh() && PairingUnchanged()
      ensures k <= |batch| && (ok ==> k == |batch|) && BatchSoFar(batch, ins0, s0, k, !ok)
      ensures incomingQueue == old(incomingQueue) && processingQueue == old(processingQueue)
      ensures drainFailed == old(drainFailed)
    {
      assert batch[..0] == [];
      var j := 0;
      while j < |batch|
        invariant 0 <= j <= |batch|
        invariant Valid() && BuffersFresh() && PairingUnchanged()
        invariant incomingQueue == old(incomingQueue) && processingQueue == old(processingQueue)
        invariant drainFailed == old(drainFailed)
        invariant BatchSoFar(batch, ins0, s0, j, false)
      {
        ok := InsertBatchChunk(batch, j, ins0, s0);
        if !ok {
          return false, j + 1;
        }
        j := j + 1;
      }
      return true, j;
    }

    /** The queue fields take the given values; the pools and the scene stay. */
    method SetDrainState(queue: seq<PendingChunk>, busy: bool, ghost failed: bool)
      requires Valid()
      modifies this
      ensures Valid() && PoolsUnchanged() && PairingUnchanged() && SceneUnchanged()
      ensures Contents() == old(Contents()) && inserted == old(inserted)
      ensures incomingQueue == queue && processingQueue == busy && drainFailed == failed
    {
      incomingQueue := queue;
      processingQueue := busy;
      drainFailed := failed;
      assert filePools == old(filePools);
      assert StatesOf(filePools) == old(StatesOf(filePools));
    }

    /** The first `k` chunks of `batch` went to insertChunkIntoPool after the log
        `ins0` and the pools and scene `s0`, and went as `failed` says. */
    ghost predicate BatchSoFar(batch: seq<PendingChunk>, ins0: seq<PendingChunk>, s0: WfScene, k: nat, failed: bool)
      requires Valid() && k <= |batch|
      reads this, set n | n in filePools :: filePools[n].posBuffer, set n | n in filePools :: filePools[n].colorBuffer
    {
      && inserted == ins0 + batch[..k]
      && Contents() == Run(InsertInto, s0, batch[..k]).0
      && StoppedAt(InsertInto, s0, batch[..k], failed)
    }

    /** One chunk of a batch goes to its pool and joins the insert log; `ok` is that
        insert's outcome. */
    method InsertBatchChunk(batch: seq<PendingChunk>, j: nat, ghost ins0: seq<PendingChunk>, ghost s0: WfScene)
      returns (ok: bool)
      requires Valid() && j < |batch| && BatchSoFar(batch, ins0, s0, j, false)
      modifies this, owner.Keys
      ensures Valid() && BuffersFresh() && PairingUnchanged()
      ensures BatchSoFar(batch, ins0, s0, j + 1, !ok)
      ensures incomingQueue == old(incomingQueue) && processingQueue == old(processingQueue)
      ensures drainFailed == old(drainFailed)
    {
      TakeNext(batch, j);
      LogAppend(ins0, batch, j);
      RunSnoc(InsertInto, s0, batch[..j], batch[j]);
      ok := InsertChunkIntoPool(batch[j]);
      if !ok {
        StoppedLast(InsertInto, s0, batch, j);
      }
    }

    /** processBufferedChunks: a call while a drain is running returns at once;
        otherwise the queue is drained batch by batch (the scheduling between batches
        is not modelled) until it is empty or an insert throws. */
    method ProcessBufferedChunks()
      requires Valid()
      modifies this, owner.Keys
      ensures Valid() && BuffersFresh() && PairingUnchanged()
      ensures DrainedFrom(old(incomingQueue), old(inserted), old(Contents()), old(processingQueue))
      ensures old(processingQueue) ==> filePools == old(filePools) && poolOrder == old(poolOrder) && SceneUnchanged()
    {
      if processingQueue {
        return;
      }
      if |incomingQueue| == 0 {
        SetDrainState(incomingQueue, false, false);
        NothingToDrain(InsertInto, incomingQueue, inserted, Contents());
        return;
      }
      SetDrainState(incomingQueue, true, false);
      ProgressStart(InsertInto, incomingQueue, inserted, Contents());
      DrainRunning(incomingQueue, inserted, Contents());
    }

    /** The batches of a running drain from `q0`, `ins0`, `s0`, one after the other,
        until the queue is empty or an insert threw. */
    method DrainRunning(ghost q0: seq<PendingChunk>, ghost ins0: seq<PendingChunk>, ghost s0: WfScene)
      requires Valid() && DrainState(q0, ins0, s0, true)
      modifies this, owner.Keys
      ensures Valid() && BuffersFresh() && PairingUnchanged()
      ensures DrainState(q0, ins0, s0, false)
    {
      var more := true;
      while more
        invariant Valid() && BuffersFresh() && PairingUnchanged()
        invariant DrainState(q0, ins0, s0, more)
        decreases |incomingQueue|, more
      {
        more := DrainOnce(q0, ins0, s0);
      }
    }

    /** Chunks join the queue and the queue is drained (`push` followed by
        processBufferedChunks). */
    method EnqueueAndDrain(items: seq<PendingChunk>)
      requires Valid()
      modifies this, owner.Keys
      ensures Valid() && BuffersFresh() && PairingUnchanged()
      ensures DrainedFrom(old(incomingQueue) + items, old(inserted), old(Contents()), old(processingQueue))
    {
      SetDrainState(incomingQueue + items, processingQueue, drainFailed);
      ProcessBufferedChunks();
    }

    /** The pairing state is replaced; the pools, the scene and the queue stay. */
    method SetPairing(meta: Option<BinaryChunkMeta>, pending: map<string, PendingChunk>, order: seq<string>)
      requires Valid() && Consistent(filePools, poolOrder, owner, pending, order)
      modifies this
      ensures Valid() && PoolsUnchanged() && QueueUnchanged() && SceneUnchanged()
      ensures Contents() == old(Contents())
      ensures currentMeta == meta && partialPending == pending && pendingOrder == order
    {
      currentMeta := meta;
      partialPending := pending;
      pendingOrder := order;
      assert filePools == old(filePools);
      assert StatesOf(filePools) == old(StatesOf(filePools));
    }

    /** One scheduled doBatch of a running drain from `q0`, `ins0`, `s0`: the drain
        stays in step, or ends drained. */
    method DrainOnce(ghost q0: seq<PendingChunk>, ghost ins0: seq<PendingChunk>, ghost s0: WfScene)
      returns (more: bool)
      requires Valid() && DrainState(q0, ins0, s0, true)
      modifies this, owner.Keys
      ensures Valid() && BuffersFresh() && PairingUnchanged()
      ensures |incomingQueue| < |old(incomingQueue)|
      ensures DrainState(q0, ins0, s0, more)
    {
      ghost var q := incomingQueue;
      ghost var ins := inserted;
      ghost var sc := Contents();
      more := DoBatch();
      DrainStep(InsertInto, q0, ins0, s0, q, ins, sc, incomingQueue, inserted, Contents(), drainFailed);
    }

    /** The `complete` message: every pool in Map order is flushed to the scene. */
    method FlushAll()
      requires Valid()
      modifies this
      ensures Valid() && owner == old(owner) && poolOrder == old(poolOrder) && filePools.Keys == old(filePools).Keys
      ensures forall n :: n in filePools ==> filePools[n] == old(filePools)[n].(writeOffset := 0)
      ensures flushed == old(flushed) + FlushEach(old(StatesOf(filePools)), poolOrder)
      ensures totalPoints == old(totalPoints) + PointsOf(FlushEach(old(StatesOf(filePools)), poolOrder))
      ensures QueueUnchanged() && PairingUnchanged()
    {
      ghost var st0 := StatesOf(filePools);
      ghost var cur := st0;
      var i := 0;
      while i < |poolOrder|
        invariant 0 <= i <= |poolOrder|
        invariant Valid() && owner == old(owner) && poolOrder == old(poolOrder)
        invariant StatesOf(filePools) == cur
        invariant FlushedUpTo(filePools, old(filePools), poolOrder, i)
        invariant flushed + FlushEach(cur, poolOrder[i..]) == old(flushed) + FlushEach(st0, poolOrder)
        invariant totalPoints + PointsOf(FlushEach(cur, poolOrder[i..])) == old(totalPoints) + PointsOf(FlushEach(st0, poolOrder))
        invariant QueueUnchanged() && PairingUnchanged()
      {
        cur := FlushOne(i, cur, old(filePools), old(flushed) + FlushEach(st0, poolOrder),
                        old(totalPoints) + PointsOf(FlushEach(st0, poolOrder)));
        i := i + 1;
      }
    }

    /** The body of the flush-all loop: the pool at position `i` goes to the scene, and
        `cur` follows the pool contents. */
    method FlushOne(i: nat, ghost cur: map<string, PoolState>, ghost pools0: map<string, PoolRec>,
                    ghost goal: seq<Snapshot>, ghost goalPoints: int)
      returns (ghost next: map<string, PoolState>)
      requires Valid() && i < |poolOrder| && StatesOf(filePools) == cur
      requires FlushedUpTo(filePools, pools0, poolOrder, i)
      requires flushed + FlushEach(cur, poolOrder[i..]) == goal
      requires totalPoints + PointsOf(FlushEach(cur, poolOrder[i..])) == goalPoints
      modifies this
      ensures Valid() && owner == old(owner) && poolOrder == old(poolOrder)
      ensures StatesOf(filePools) == next
      ensures FlushedUpTo(filePools, pools0, poolOrder, i + 1)
      ensures flushed + FlushEach(next, poolOrder[i + 1..]) == goal
      ensures totalPoints + PointsOf(FlushEach(next, poolOrder[i + 1..])) == goalPoints
      ensures QueueUnchanged() && PairingUnchanged()
    {
      var name := poolOrder[i];
      ghost var s := cur[name];
      ghost var p0 := filePools;
      label Before:
      FlushPoolToScene(name, s);
      StatesFramed@Before(p0);
      ghost var r := Flush(s);
      FlushEachCons(cur, poolOrder, i);
      FlushedUpToStep(p0, pools0, poolOrder, i);
      next := cur[name := r.1];
      assert StatesOf(p0) == cur;
      StatesOfOffset(p0, name, 0);
      AppendAssoc(old(flushed), SnapshotList(r.0), FlushEach(next, poolOrder[i + 1..]));
      PointsOfCons(r.0, FlushEach(next, poolOrder[i + 1..]));
    }

    /** A text message: `chunk_meta` with a `meta` becomes the current metadata,
        `complete` flushes every pool, and anything else (other types, text that is not
        JSON) changes nothing here. */
    method OnText(msg: Option<ViewerJson>)
      requires Valid()
      modifies this
      ensures Valid() && owner == old(owner) && poolOrder == old(poolOrder) && filePools.Keys == old(filePools).Keys
      ensures QueueUnchanged() && partialPending == old(partialPending) && pendingOrder == old(pendingOrder)
      ensures msg.Some? && msg.value.kind == "chunk_meta" && msg.value.meta.Some? ==>
        currentMeta == msg.value.meta && filePools == old(filePools) && SceneUnchanged()
      ensures msg.Some? && msg.value.kind == "complete" ==>
        && currentMeta == old(currentMeta)
        && (forall n :: n in filePools ==> filePools[n] == old(filePools)[n].(writeOffset := 0))
        && flushed == old(flushed) + FlushEach(old(StatesOf(filePools)), poolOrder)
        && totalPoints == old(totalPoints) + PointsOf(FlushEach(old(StatesOf(filePools)), poolOrder))
      ensures msg.None? || (msg.value.kind != "complete" && !(msg.value.kind == "chunk_meta" && msg.value.meta.Some?)) ==>
        currentMeta == old(currentMeta) && filePools == old(filePools) && SceneUnchanged()
    {
      if msg.None? {
        return;
      }
      var j := msg.value;
      if j.kind == "chunk_meta" && j.meta.Some? {
        currentMeta := j.meta;
      } else if j.kind == "complete" {
        FlushAll();
      }
    }

    /** A binary frame. Without current metadata, or with a length that is not a whole
        number of floats (the Float32Array constructor throws), nothing happens. A chunk
        without colours is queued and drained and the metadata is cleared; a chunk with
        colours is parked under its key, and a second frame for the same key replaces
        the parked positions (the metadata stays current, so colours sent as the next
        frame land there). */
    method OnBinary(data: seq<byte>)
      requires Valid()
      modifies this, owner.Keys
      ensures Valid() && BuffersFresh()
      ensures old(currentMeta).None? || |data| % 4 != 0 ==> unchanged(this)
      ensures old(currentMeta).Some? && |data| % 4 == 0 && !old(currentMeta).value.hasColor ==>
        && currentMeta == None && partialPending == old(partialPending) && pendingOrder == old(pendingOrder)
        && DrainedFrom(old(incomingQueue) + [PendingChunk(old(currentMeta).value, Some(decodeFloats(data)), None)],
                       old(inserted), old(Contents()), old(processingQueue))
      ensures old(currentMeta).Some? && |data| % 4 == 0 && old(currentMeta).value.hasColor ==>
        var meta := old(currentMeta).value;
        var key := PendingKey(meta);
        && currentMeta == old(currentMeta) && QueueUnchanged() && PoolsUnchanged() && SceneUnchanged()
        && (key !in old(partialPending) ==>
              && partialPending == old(partialPending)[key := PendingChunk(meta, Some(decodeFloats(data)), None)]
              && pendingOrder == old(pendingOrder) + [key])
        && (key in old(partialPending) ==>
              && partialPending == old(partialPending)[key := old(partialPending)[key].(positions := Some(decodeFloats(data)))]
              && pendingOrder == old(pendingOrder))
    {
      if currentMeta.None? || |data| % 4 != 0 {
        return;
      }
      var meta := currentMeta.value;
      var floats := decodeFloats(data);
      var key := PendingKey(meta);
      if !meta.hasColor {
        EnqueueAndDrain([PendingChunk(meta, Some(floats), None)]);
        SetPairing(None, partialPending, pendingOrder);
      } else if key !in partialPending {
        partialPending := partialPending[key := PendingChunk(meta, Some(floats), None)];
        pendingOrder := pendingOrder + [key];
      } else {
        partialPending := partialPending[key := partialPending[key].(positions := Some(floats))];
      }
    }

    /** attachColorsToPending: the parked chunk under the metadata's key takes the
        colours, moves to the queue and leaves the parked set, and the queue is drained.
        No parked chunk: nothing happens. Colour bytes that are not a whole number of
        floats throw before anything changes (`ok` false). */
    method AttachColorsToPending(meta: BinaryChunkMeta, colorBytes: seq<byte>) returns (ok: bool)
      requires Valid()
      modifies this, owner.Keys
      ensures Valid() && BuffersFresh()
      ensures PendingKey(meta) !in old(partialPending) ==> ok && unchanged(this)
      ensures PendingKey(meta) in old(partialPending) && |colorBytes| % 4 != 0 ==> !ok && unchanged(this)
      ensures PendingKey(meta) in old(partialPending) && |colorBytes| % 4 == 0 ==>
        var key := PendingKey(meta);
        && ok && currentMeta == old(currentMeta)
        && partialPending == old(partialPending) - {key}
        && pendingOrder == Without(old(pendingOrder), key)
        && DrainedFrom(old(incomingQueue) + [old(partialPending)[key].(colors := Some(decodeFloats(colorBytes)))],
                       old(inserted), old(Contents()), old(processingQueue))
    {
      var key := PendingKey(meta);
      if key !in partialPending {
        return true;
      }
      if |colorBytes| % 4 != 0 {
        return false;
      }
      ok := AttachAndDrain(key, decodeFloats(colorBytes));
    }

    /** The parked chunk under `key` takes `colors`, leaves the parked set and joins
        the queue, and the queue is drained. */
    method AttachAndDrain(key: string, colors: seq<real>) returns (ok: bool)
      requires Valid() && key in partialPending
      modifies this, owner.Keys
      ensures Valid() && BuffersFresh()
      ensures ok && currentMeta == old(currentMeta)
      ensures partialPending == old(partialPending) - {key} && pendingOrder == Without(old(pendingOrder), key)
      ensures DrainedFrom(old(incomingQueue) + [old(partialPending)[key].(colors := Some(colors))],
                          old(inserted), old(Contents()), old(processingQueue))
    {
      var pending := Unpark(key);
      EnqueueAndDrain([pending.(colors := Some(colors))]);
      ok := true;
    }

    /** The parked chunk under `key` leaves the parked set (`delete partialPending[key]`);
        nothing else changes. */
    method Unpark(key: string) returns (pending: PendingChunk)
      requires Valid() && key in partialPending
      modifies this
      ensures Valid() && PoolsUnchanged() && QueueUnchanged() && SceneUnchanged()
      ensures Contents() == old(Contents())
      ensures pending == old(partialPending)[key] && currentMeta == old(currentMeta)
      ensures partialPending == old(partialPending) - {key} && pendingOrder == Without(old(pendingOrder), key)
    {
      pending := partialPending[key];
      SetPairing(currentMeta, partialPending - {key}, Without(pendingOrder, key));
    }

    /** The socket closed: every parked chunk moves to the queue in key order, the
        parked set is emptied and the queue is drained. */
    method OnClose()
      requires Valid()
      modifies this, owner.Keys
      ensures Valid() && BuffersFresh()
      ensures partialPending == map[] && pendingOrder == [] && currentMeta == old(currentMeta)
      ensures DrainedFrom(old(incomingQueue) + Parked(old(pendingOrder), old(partialPending)), old(inserted), old(Contents()), old(processingQueue))
    {
      var parked := Parked(pendingOrder, partialPending);
      SetPairing(currentMeta, map[], []);
      EnqueueAndDrain(parked);
    }

    /** The part of insertChunkIntoPool after the pool exists; `s` is its contents. */
    method InsertIntoPool(name: string, positions: seq<real>, colors: Option<seq<real>>, ghost s: PoolState)
      returns (ok: bool)
      requires Valid() && name in filePools && State(filePools[name]) == s
      modifies this, filePools[name].posBuffer, filePools[name].colorBuffer
      ensures Valid() && BuffersFresh()
      ensures Wf(s)
      ensures var o := Insert(s, positions, colors);
        && name in filePools
        && State(filePools[name]) == o.pool && ok == o.ok
        && flushed == old(flushed) + SnapshotList(o.snapshot)
        && totalPoints == old(totalPoints) + Counted(o.snapshot)
      ensures poolOrder == old(poolOrder) && filePools == old(filePools)[name := filePools[name]]
      ensures QueueUnchanged() && PairingUnchanged()
    {
      if |positions| == 0 {
        return true;
      }
      if filePools[name].writeOffset + |positions| > filePools[name].capacity {
        ok := GrowAndWrite(name, positions, colors, s);
      } else {
        ok := WritePool(name, positions, colors);
      }
    }

    /** The overflow branch of insertChunkIntoPool: flush, grow, then write. */
    method GrowAndWrite(name: string, positions: seq<real>, colors: Option<seq<real>>, ghost s: PoolState)
      returns (ok: bool)
      requires Valid() && name in filePools && State(filePools[name]) == s
      requires filePools[name].writeOffset + |positions| > filePools[name].capacity
      modifies this, filePools[name].colorBuffer
      ensures Valid() && BuffersFresh()
      ensures Wf(s)
      ensures var o := Insert(s, positions, colors);
        && name in filePools
        && State(filePools[name]) == o.pool && ok == o.ok
        && flushed == old(flushed) + SnapshotList(o.snapshot)
        && totalPoints == old(totalPoints) + Counted(o.snapshot)
      ensures poolOrder == old(poolOrder) && filePools == old(filePools)[name := filePools[name]]
      ensures QueueUnchanged() && PairingUnchanged()
    {
      MakeRoom(name, |positions|, s);
      ghost var pools1 := filePools;
      ok := WritePool(name, positions, colors);
      UpdateTwice(old(filePools), name, pools1[name], filePools[name]);
      InsertOverflowSteps(s, positions, colors);
    }

    /** The overflow branch: flush the pool to the scene, then grow its position buffer. */
    method MakeRoom(name: string, n: nat, ghost s: PoolState)
      requires Valid() && name in filePools && State(filePools[name]) == s
      modifies this
      ensures Valid() && BuffersFresh()
      ensures Wf(s)
      ensures name in filePools && fresh(filePools[name].posBuffer)
      ensures filePools[name].colorBuffer == old(filePools[name].colorBuffer)
      ensures var r := Flush(s);
        && State(filePools[name]) == Grow(r.1, n)
        && flushed == old(flushed) + SnapshotList(r.0)
        && totalPoints == old(totalPoints) + Counted(r.0)
      ensures poolOrder == old(poolOrder) && filePools == old(filePools)[name := filePools[name]]
      ensures QueueUnchanged() && PairingUnchanged()
    {
      FlushPoolToScene(name, s);
      assert State(filePools[name]) == Flush(s).1;
      GrowPool(name, n);
    }
  }
  /** The viewer's pools (by name, with the Map's order) and what has gone to the
      scene (the flushed snapshots and the point total), as values. */
  datatype Scene = Scene(pools: map<string, PoolState>, order: seq<string>, flushed: seq<Snapshot>, total: int)

  predicate SceneWf(s: Scene) {
    forall n :: n in s.pools ==> Wf(s.pools[n])
  }

  /** A scene whose pools are all well formed. */
  type WfScene = s: Scene | SceneWf(s) witness Scene(map[], [], [], 0)

  /** insertChunkIntoPool on the pools as values: the chunk's pool (a new one for
      max(count, 200000) points, added last, when the name has none) becomes
      PoolSpec.Insert's result, the snapshot a full pool gives up joins the scene, and
      the boolean says whether the insert finished without throwing. */
  function InsertInto(s: WfScene, c: PendingChunk): (r: (WfScene, bool))
    ensures PoolName(c.meta) in r.0.pools && r.0.pools.Keys == s.pools.Keys + {PoolName(c.meta)}
    ensures forall n :: n in s.pools && n != PoolName(c.meta) ==> r.0.pools[n] == s.pools[n]
    ensures |s.flushed| <= |r.0.flushed| <= |s.flushed| + 1 && r.0.flushed[..|s.flushed|] == s.flushed
    ensures !r.1 ==> c.colors.Some? && |PositionsOf(c)| > 0
  {
    var name := PoolName(c.meta);
    var base := if name in s.pools then s.pools[name] else NewPool(InsertPoolPoints(c.meta));
    var o := Insert(base, PositionsOf(c), c.colors);
    (Scene(s.pools[name := o.pool], if name in s.pools then s.order else s.order + [name],
           s.flushed + SnapshotList(o.snapshot), s.total + Counted(o.snapshot)),
     o.ok)
  }

  /** The flush-all loop has flushed `order[..i]`: every pool is its entry in `pools0`,
      with the offset 0 when its name has been flushed and unchanged otherwise. */
  ghost predicate FlushedUpTo(pools: map<string, PoolRec>, pools0: map<string, PoolRec>, order: seq<string>, i: nat) {
    && i <= |order| && pools.Keys == pools0.Keys
    && forall n :: n in pools ==>
      pools[n] == pools0[n].(writeOffset := if n in order[..i] then 0 else pools0[n].writeOffset)
  }

  lemma FlushedUpToStep(pools: map<string, PoolRec>, pools0: map<string, PoolRec>, order: seq<string>, i: nat)
    requires i < |order| && order[i] in pools0
    requires FlushedUpTo(pools, pools0, order, i)
    ensures var n := order[i];
      FlushedUpTo(pools[n := pools[n].(writeOffset := 0)], pools0, order, i + 1)
  {
    assert order[..i + 1] == order[..i] + [order[i]];
  }

  /** The viewer's invariant: pools own their buffers, `poolOrder` lists exactly the
      pooled names and `pendingOrder` exactly the parked keys, and every parked chunk
      has positions. */
  ghost predicate Consistent(pools: map<string, PoolRec>, poolOrder: seq<string>, owner: map<array<real>, string>,
                             pending: map<string, PendingChunk>, pendingOrder: seq<string>) {
    && PoolsOwned(pools, owner)
    && (forall n :: n in pools <==> n in poolOrder)
    && (forall k :: k in pending <==> k in pendingOrder)
    && (forall k :: k in pending ==> pending[k].positions.Some?)
  }

  /** Every pool is well shaped and its two buffers are distinct and recorded as its
      own, so no buffer is shared between pools. */
  ghost predicate PoolsOwned(pools: map<string, PoolRec>, owner: map<array<real>, string>) {
    forall n :: n in pools ==>
      var p := pools[n];
      && Shaped(p) && p.posBuffer != p.colorBuffer
      && p.posBuffer in owner && owner[p.posBuffer] == n
      && p.colorBuffer in owner && owner[p.colorBuffer] == n
  }

  /** The insert log after one more chunk of a batch. */
  lemma LogAppend(ins0: seq<PendingChunk>, batch: seq<PendingChunk>, j: nat)
    requires j < |batch|
    ensures ins0 + batch[..j] + [batch[j]] == ins0 + batch[..j + 1]
  {
    assert batch[..j + 1] == batch[..j] + [batch[j]];
  }

  /** A pool's offset may change within its capacity. */
  lemma ConsistentOffset(pools: map<string, PoolRec>, poolOrder: seq<string>, owner: map<array<real>, string>,
                         pending: map<string, PendingChunk>, pendingOrder: seq<string>, name: string, wo: nat)
    requires Consistent(pools, poolOrder, owner, pending, pendingOrder) && name in pools && wo <= pools[name].capacity
    ensures Consistent(pools[name := pools[name].(writeOffset := wo)], poolOrder, owner, pending, pendingOrder)
  {
    PoolsOwnedOffset(pools, owner, name, wo);
  }

  /** The contents of the pools depend only on their buffers. */
  twostate lemma StatesFramed(pools: map<string, PoolRec>)
    requires forall n :: n in pools ==> unchanged(pools[n].posBuffer, pools[n].colorBuffer)
    ensures StatesOf(pools) == old(StatesOf(pools))
  {
  }

  /** Only the entry `name` changed (or was added) since the pools' contents were
      `st0`, and every other pool holds what it held: the contents are `st0` with that
      one entry replaced. */
  lemma StatesOfOne(st0: map<string, PoolState>, pools0: map<string, PoolRec>, pools: map<string, PoolRec>, name: string)
    requires st0.Keys == pools0.Keys && name in pools && pools == pools0[name := pools[name]]
    requires forall n :: n in pools0 && n != name ==> State(pools[n]) == st0[n]
    ensures StatesOf(pools) == st0[name := State(pools[name])]
  {
  }

  /** Two updates of the same entry are the second one. */
  lemma UpdateTwice(m: map<string, PoolRec>, k: string, a: PoolRec, b: PoolRec)
    ensures m[k := a][k := b] == m[k := b]
  {
  }

  /** A pool's offset moves and its contents follow, buffers untouched. */
  lemma StatesOfOffset(pools: map<string, PoolRec>, name: string, wo: nat)
    requires name in pools
    ensures StatesOf(pools[name := pools[name].(writeOffset := wo)]) == StatesOf(pools)[name := State(pools[name]).(writeOffset := wo)]
  {
  }

  /** A pool may take a new position buffer of its own. */
  lemma ConsistentReplace(pools: map<string, PoolRec>, poolOrder: seq<string>, owner: map<array<real>, string>,
                          pending: map<string, PendingChunk>, pendingOrder: seq<string>, name: string, p: PoolRec)
    requires Consistent(pools, poolOrder, owner, pending, pendingOrder) && name in pools
    requires Shaped(p) && p.colorBuffer == pools[name].colorBuffer && p.posBuffer !in owner
    ensures Consistent(pools[name := p], poolOrder, owner[p.posBuffer := name], pending, pendingOrder)
  {
    PoolsOwnedReplace(pools, owner, name, p);
  }

  /** A new pool with two buffers of its own can join, at the end of the order. */
  lemma ConsistentAdd(pools: map<string, PoolRec>, poolOrder: seq<string>, owner: map<array<real>, string>,
                      pending: map<string, PendingChunk>, pendingOrder: seq<string>, name: string, p: PoolRec)
    requires Consistent(pools, poolOrder, owner, pending, pendingOrder) && name !in pools
    requires Shaped(p) && p.posBuffer != p.colorBuffer && p.posBuffer !in owner && p.colorBuffer !in owner
    ensures Consistent(pools[name := p], poolOrder + [name], owner[p.posBuffer := name][p.colorBuffer := name],
                       pending, pendingOrder)
  {
    PoolsOwnedAdd(pools, owner, name, p);
  }

  /** A pool with two new buffers can join. */
  lemma PoolsOwnedAdd(pools: map<string, PoolRec>, owner: map<array<real>, string>, name: string, p: PoolRec)
    requires PoolsOwned(pools, owner) && name !in pools
    requires Shaped(p) && p.posBuffer != p.colorBuffer && p.posBuffer !in owner && p.colorBuffer !in owner
    ensures PoolsOwned(pools[name := p], owner[p.posBuffer := name][p.colorBuffer := name])
  {
  }

  /** A pool may move its write offset within its capacity. */
  lemma PoolsOwnedOffset(pools: map<string, PoolRec>, owner: map<array<real>, string>, name: string, wo: nat)
    requires PoolsOwned(pools, owner) && name in pools && wo <= pools[name].capacity
    ensures PoolsOwned(pools[name := pools[name].(writeOffset := wo)], owner)
  {
  }

  /** A pool may take a new position buffer, or change its offset and capacity. */
  lemma PoolsOwnedReplace(pools: map<string, PoolRec>, owner: map<array<real>, string>, name: string, p: PoolRec)
    requires PoolsOwned(pools, owner) && name in pools
    requires Shaped(p) && p.colorBuffer == pools[name].colorBuffer
    requires p.posBuffer == pools[name].posBuffer || p.posBuffer !in owner
    ensures PoolsOwned(pools[name := p], owner[p.posBuffer := name])
  {
  }

  /** The first `i` file entries have been given pools on top of `pools0`: a name is
      pooled when it was before or some entry among the first `i` carries it; old
      entries are kept, and a new one is sized by the first entry with its name. */
  ghost predicate Prepared(pools: map<string, PoolRec>, files: seq<FileEntry>, i: nat, pools0: map<string, PoolRec>) {
    && i <= |files|
    && (forall n :: n in pools <==> n in pools0 || (n != "" && FirstNamed(files, n) < i))
    && (forall n :: n in pools0 ==> pools[n] == pools0[n])
    && (forall n :: n in pools && n !in pools0 ==>
          SizedFor(pools[n], CapacityPoints(EntryExpected(files[FirstNamed(files, n)]))))
  }

  /** One more entry: an unnamed one changes nothing, a named one adds its pool unless
      the name is already pooled. */
  lemma PreparedStep(before: map<string, PoolRec>, after: map<string, PoolRec>,
                     files: seq<FileEntry>, i: nat, pools0: map<string, PoolRec>)
    requires i < |files| && Prepared(before, files, i, pools0)
    requires EntryName(files[i]) == "" ==> after == before
    requires EntryName(files[i]) != "" ==>
      var name := EntryName(files[i]);
      && (name in before ==> after == before)
      && (name !in before ==>
            && name in after && after == before[name := after[name]]
            && SizedFor(after[name], CapacityPoints(EntryExpected(files[i]))))
    ensures Prepared(after, files, i + 1, pools0)
  {
    var name := EntryName(files[i]);
    FirstNamedBound(files, i);
    forall n | n != "" && n != name
      ensures FirstNamed(files, n) < i + 1 <==> FirstNamed(files, n) < i
    {
    }
    if name != "" && name !in before {
      assert FirstNamed(files, name) == i;
    }
  }

  /** Index of the first entry named `n` (|files| when there is none). */
  function FirstNamed(files: seq<FileEntry>, n: string): (i: nat)
    ensures i <= |files|
    ensures i < |files| ==> EntryName(files[i]) == n
    ensures forall j :: 0 <= j < i ==> EntryName(files[j]) != n
    decreases |files|
  {
    if |files| == 0 then 0
    else if EntryName(files[0]) == n then 0
    else 1 + FirstNamed(files[1..], n)
  }

  lemma FirstNamedBound(files: seq<FileEntry>, i: nat)
    requires i < |files|
    ensures FirstNamed(files, EntryName(files[i])) <= i
  {
  }
}

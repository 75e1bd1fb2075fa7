/** The per-file point pools of the frontend point-cloud viewer, as values: what one
    pool holds, and what inserting a chunk and flushing the pool do to it. The
    viewer class (PointCloudViewer.dfy) keeps the buffers in arrays and is proved to
    follow these functions. */
module PoolSpec {
  import opened Common

  /** Points per pool when nothing better is known. */
  const DEFAULT_POINTS_CAPACITY: int := 2_000_000
  /** Floats per pool buffer at least: three per default point. */
  const DEFAULT_FLOAT_CAPACITY: int := 6_000_000
  /** The least number of points a pool is sized for. */
  const MIN_POOL_POINTS: int := 200_000

  /** The contents of one pool: the position and colour buffers (three floats per
      point), the number of floats written, and the position buffer's capacity. */
  datatype PoolState = PoolState(pos: seq<real>, colors: seq<real>, writeOffset: nat, capacity: nat)

  /** The position buffer is exactly `capacity` floats and the written part fits in it. */
  predicate Wf(s: PoolState) {
    |s.pos| == s.capacity && s.writeOffset <= s.capacity
  }

  /** What a flush hands to the scene: the written part of the position buffer and the
      same range of the colour buffer (cut short where that buffer is shorter). In the
      viewer these are views of the pool's buffers, not copies, so they show whatever is
      written there later; here they are the values at flush time. */
  datatype Snapshot = Snapshot(positions: seq<real>, colors: seq<real>)

  function Zeros(n: nat): (z: seq<real>)
    ensures |z| == n && forall i :: 0 <= i < n ==> z[i] == 0.0
  {
    seq(n, _ => 0.0)
  }

  /** The floats a new pool is sized for: three per point, and never fewer than the
      default. */
  function PoolFloats(capacityPoints: int): (f: nat)
    ensures f >= DEFAULT_FLOAT_CAPACITY && f >= 3 * capacityPoints
    ensures f == 3 * capacityPoints || f == DEFAULT_FLOAT_CAPACITY
  {
    Max(capacityPoints * 3, DEFAULT_FLOAT_CAPACITY)
  }

  /** A new pool: both buffers zero-filled at the same size, nothing written. */
  function NewPool(capacityPoints: int): (s: PoolState)
    ensures Wf(s) && s.writeOffset == 0 && s.capacity == PoolFloats(capacityPoints)
    ensures |s.colors| == s.capacity
  {
    var f := PoolFloats(capacityPoints);
    PoolState(Zeros(f), Zeros(f), 0, f)
  }

  /** `preparePoolsFromMetadata` sizing: the expected point count, with 0 meaning the
      default, clamped to [MIN_POOL_POINTS, DEFAULT_POINTS_CAPACITY]. */
  function CapacityPoints(expected: int): (c: int)
    ensures MIN_POOL_POINTS <= c <= DEFAULT_POINTS_CAPACITY
    ensures expected == 0 ==> c == DEFAULT_POINTS_CAPACITY
    ensures MIN_POOL_POINTS <= expected <= DEFAULT_POINTS_CAPACITY ==> c == expected
    ensures expected != 0 && expected < MIN_POOL_POINTS ==> c == MIN_POOL_POINTS
    ensures expected > DEFAULT_POINTS_CAPACITY ==> c == DEFAULT_POINTS_CAPACITY
  {
    Max(Min(if expected != 0 then expected else DEFAULT_POINTS_CAPACITY, DEFAULT_POINTS_CAPACITY), MIN_POOL_POINTS)
  }

  /** `dst.set(src, at)` on a typed array: `src` replaces the cells [at, at + |src|). */
  function Overwrite(dst: seq<real>, at: nat, src: seq<real>): (r: seq<real>)
    requires at + |src| <= |dst|
    ensures |r| == |dst|
    ensures forall i :: 0 <= i < |src| ==> r[at + i] == src[i]
    ensures forall i :: 0 <= i < |dst| && !(at <= i < at + |src|) ==> r[i] == dst[i]
  {
    dst[..at] + src + dst[at + |src|..]
  }

  /** `flushPoolToScene` on an existing pool: nothing when nothing is written;
      otherwise the written range goes to the scene and the write offset returns to 0,
      the buffers and the capacity staying as they are. */
  function Flush(s: PoolState): (r: (Option<Snapshot>, PoolState))
    requires Wf(s)
    ensures Wf(r.1) && r.1.writeOffset == 0
    ensures r.1.pos == s.pos && r.1.colors == s.colors && r.1.capacity == s.capacity
    ensures r.0.Some? <==> s.writeOffset > 0
    ensures r.0.Some? ==> r.0.value.positions == s.pos[..s.writeOffset]
  {
    if s.writeOffset == 0 then (None, s)
    else
      var wo := s.writeOffset;
      (Some(Snapshot(s.pos[..wo], s.colors[..Min(wo, |s.colors|)])), s.(writeOffset := 0))
  }

  function SnapshotList(s: Option<Snapshot>): seq<Snapshot> {
    if s.Some? then [s.value] else []
  }

  /** Points a flush adds to the scene's total: floor(writeOffset / 3). */
  function Counted(s: Option<Snapshot>): nat {
    if s.Some? then |s.value.positions| / 3 else 0
  }

  /** Points the snapshots add to the total. */
  function PointsOf(snaps: seq<Snapshot>): nat
    decreases |snaps|
  {
    if |snaps| == 0 then 0 else |snaps[0].positions| / 3 + PointsOf(snaps[1..])
  }

  /** The snapshots that flushing the named pools one after the other hands to the
      scene; each flush sees the pools as the earlier ones left them, and a name
      without a pool gives nothing. */
  function FlushEach(pools: map<string, PoolState>, names: seq<string>): seq<Snapshot>
    decreases |names|
  {
    if |names| == 0 then []
    else if names[0] !in pools || !Wf(pools[names[0]]) then FlushEach(pools, names[1..])
    else
      var r := Flush(pools[names[0]]);
      SnapshotList(r.0) + FlushEach(pools[names[0] := r.1], names[1..])
  }

  /** The points of a flush followed by further snapshots. */
  lemma PointsOfCons(snap: Option<Snapshot>, rest: seq<Snapshot>)
    ensures PointsOf(SnapshotList(snap) + rest) == Counted(snap) + PointsOf(rest)
  {
    if snap.Some? {
      assert (SnapshotList(snap) + rest)[1..] == rest;
    } else {
      assert SnapshotList(snap) + rest == rest;
    }
  }

  /** Flushing from position `i` of the list: the pool named there first, then the rest. */
  lemma FlushEachCons(pools: map<string, PoolState>, names: seq<string>, i: nat)
    requires i < |names| && names[i] in pools && Wf(pools[names[i]])
    ensures var r := Flush(pools[names[i]]);
      FlushEach(pools, names[i..]) == SnapshotList(r.0) + FlushEach(pools[names[i] := r.1], names[i + 1..])
  {
    assert names[i..][1..] == names[i + 1..];
  }

  /** The position buffer is replaced by a zero-filled one of twice the capacity (or of
      what the write needs, if more), keeping the written part. */
  function Grow(s: PoolState, n: nat): (r: PoolState)
    requires Wf(s)
    ensures Wf(r) && r.capacity >= 2 * s.capacity && r.capacity >= s.writeOffset + n
    ensures r.pos[..s.writeOffset] == s.pos[..s.writeOffset]
    ensures forall i :: s.writeOffset <= i < r.capacity ==> r.pos[i] == 0.0
    ensures r.writeOffset == s.writeOffset && r.colors == s.colors
  {
    var cap := Max(2 * s.capacity, s.writeOffset + n);
    s.(pos := s.pos[..s.writeOffset] + Zeros(cap - s.writeOffset), capacity := cap)
  }

  /** The copy into a pool that has room. Positions are written first; colours, when
      the chunk has them, go to the same range of the colour buffer, and a colour
      buffer too short for them throws (a RangeError of `set`) after the positions are
      written and before the offset moves: `ok` is false then. */
  function Write(s: PoolState, positions: seq<real>, colors: Option<seq<real>>): (r: (PoolState, bool))
    requires Wf(s) && s.writeOffset + |positions| <= s.capacity
    ensures Wf(r.0) && r.0.capacity == s.capacity && |r.0.colors| == |s.colors|
    ensures r.1 <==> colors.None? || s.writeOffset + |colors.value| <= |s.colors|
    ensures r.0.writeOffset == if r.1 then s.writeOffset + |positions| else s.writeOffset
    ensures r.0.pos[s.writeOffset..s.writeOffset + |positions|] == positions
    ensures r.1 && colors.Some? ==> r.0.colors[s.writeOffset..s.writeOffset + |colors.value|] == colors.value
  {
    var wo := s.writeOffset;
    var pos := Overwrite(s.pos, wo, positions);
    if colors.Some? && wo + |colors.value| > |s.colors| then (s.(pos := pos), false)
    else
      var cs := if colors.Some? then Overwrite(s.colors, wo, colors.value) else s.colors;
      (s.(pos := pos, colors := cs, writeOffset := wo + |positions|), true)
  }

  /** The result of `insertChunkIntoPool` on one pool: what was flushed to the scene on
      the way, the pool afterwards, and whether the insert finished without throwing. */
  datatype Outcome = Outcome(snapshot: Option<Snapshot>, pool: PoolState, ok: bool)

  /** `insertChunkIntoPool` once the pool exists. A chunk without positions is
      ignored. A chunk that does not fit first flushes the pool, then the position
      buffer grows, and the chunk is written at the (now zero) offset. */
  function Insert(s: PoolState, positions: seq<real>, colors: Option<seq<real>>): (o: Outcome)
    requires Wf(s)
    ensures Wf(o.pool) && o.pool.capacity >= s.capacity && |o.pool.colors| == |s.colors|
    ensures o.snapshot.Some? ==> s.writeOffset > 0 && s.writeOffset + |positions| > s.capacity
    ensures o.ok && |positions| > 0 ==>
      |positions| <= o.pool.writeOffset && o.pool.pos[o.pool.writeOffset - |positions|..o.pool.writeOffset] == positions
  {
    var n := |positions|;
    if n == 0 then Outcome(None, s, true)
    else if s.writeOffset + n > s.capacity then
      var flushed := Flush(s);
      var grown := Grow(flushed.1, n);
      var w := Write(grown, positions, colors);
      Outcome(flushed.0, w.0, w.1)
    else
      var w := Write(s, positions, colors);
      Outcome(None, w.0, w.1)
  }

  /** The overflow branch of Insert: flush, grow, then write. */
  lemma InsertOverflowSteps(s: PoolState, positions: seq<real>, colors: Option<seq<real>>)
    requires Wf(s) && s.writeOffset + |positions| > s.capacity
    ensures var r := Flush(s);
      var w := Write(Grow(r.1, |positions|), positions, colors);
      Insert(s, positions, colors) == Outcome(r.0, w.0, w.1)
  {
  }

  // ---------------------------------------------------------------------------
  // Properties
  // ---------------------------------------------------------------------------

  /** Inserting keeps a pool well formed; its capacity never shrinks and its colour
      buffer keeps the size it was created with. */
  lemma InsertWellFormed(s: PoolState, positions: seq<real>, colors: Option<seq<real>>)
    requires Wf(s)
    ensures var o := Insert(s, positions, colors);
      && Wf(o.pool)
      && o.pool.capacity >= s.capacity
      && |o.pool.colors| == |s.colors|
  {
  }

  /** A chunk without positions changes nothing. */
  lemma InsertNothing(s: PoolState, colors: Option<seq<real>>)
    requires Wf(s)
    ensures Insert(s, [], colors) == Outcome(None, s, true)
  {
  }

  /** A chunk that fits is written at the write offset, touches no other cell of the
      position buffer, flushes nothing, and advances the offset by its length unless
      its colours throw. */
  lemma InsertFits(s: PoolState, positions: seq<real>, colors: Option<seq<real>>)
    requires Wf(s) && 0 < |positions| && s.writeOffset + |positions| <= s.capacity
    ensures var o := Insert(s, positions, colors);
      var wo := s.writeOffset;
      && o.snapshot == None
      && o.pool.capacity == s.capacity
      && o.pool.pos[wo..wo + |positions|] == positions
      && (forall i :: 0 <= i < s.capacity && !(wo <= i < wo + |positions|) ==> o.pool.pos[i] == s.pos[i])
      && (o.ok <==> colors.None? || wo + |colors.value| <= |s.colors|)
      && o.pool.writeOffset == (if o.ok then wo + |positions| else wo)
  {
    var o := Insert(s, positions, colors);
    var wo := s.writeOffset;
    assert o.pool.pos[wo..wo + |positions|] == positions;
  }

  /** A chunk that does not fit flushes first: whatever was written goes out as a
      snapshot and is not carried into the new buffer, which is zero-filled, twice the
      old capacity (or the chunk's length, if more) and holds the chunk at offset 0. */
  lemma InsertOverflows(s: PoolState, positions: seq<real>, colors: Option<seq<real>>)
    requires Wf(s) && s.writeOffset + |positions| > s.capacity
    ensures var o := Insert(s, positions, colors);
      var n := |positions|;
      && o.snapshot == (if s.writeOffset == 0 then None
                        else Some(Snapshot(s.pos[..s.writeOffset], s.colors[..Min(s.writeOffset, |s.colors|)])))
      && o.pool.capacity == Max(2 * s.capacity, n)
      && o.pool.pos[..n] == positions
      && (forall i :: n <= i < o.pool.capacity ==> o.pool.pos[i] == 0.0)
      && (o.ok <==> colors.None? || |colors.value| <= |s.colors|)
      && o.pool.writeOffset == (if o.ok then n else 0)
  {
    var o := Insert(s, positions, colors);
    assert o.pool.pos[..|positions|] == positions;
  }

  /** Flushing empties the pool without touching its buffers; the snapshot is the
      written range, whose floor(length / 3) points join the scene's total. */
  lemma FlushResets(s: PoolState)
    requires Wf(s)
    ensures var r := Flush(s);
      && r.1 == s.(writeOffset := 0)
      && (r.0.Some? <==> s.writeOffset > 0)
      && (r.0.Some? ==> r.0.value.positions == s.pos[..s.writeOffset] && |r.0.value.positions| / 3 == s.writeOffset / 3)
  {
  }

  /** The snapshot is not safe from later writes: after a flush, the next chunk that
      fits is written from offset 0 over the very cells the snapshot was taken from. */
  lemma FlushedCellsReused(s: PoolState, positions: seq<real>, colors: Option<seq<real>>)
    requires Wf(s) && s.writeOffset > 0 && 0 < |positions| <= s.capacity
    ensures var r := Flush(s);
      var o := Insert(r.1, positions, colors);
      && r.0.Some?
      && o.pool.pos[..|positions|] == positions
      && r.0.value.positions[..Min(|positions|, s.writeOffset)] == s.pos[..Min(|positions|, s.writeOffset)]
  {
    var r := Flush(s);
    InsertFits(r.1, positions, colors);
    assert Insert(r.1, positions, colors).pool.pos[..|positions|] == Insert(r.1, positions, colors).pool.pos[0..|positions|];
  }

  /** Once the position buffer has grown beyond the colour buffer, which is never
      regrown, a coloured chunk that ends past the colour buffer throws: its positions
      are written but it is not counted. */
  lemma ColourBufferNotRegrown(s: PoolState, positions: seq<real>, colors: seq<real>)
    requires Wf(s) && 0 < |positions| && |colors| == |positions|
    requires s.writeOffset + |positions| <= s.capacity && s.writeOffset + |positions| > |s.colors|
    ensures var o := Insert(s, positions, Some(colors));
      !o.ok && o.pool.writeOffset == s.writeOffset && o.pool.pos[s.writeOffset..s.writeOffset + |positions|] == positions
  {
    InsertFits(s, positions, Some(colors));
  }
}

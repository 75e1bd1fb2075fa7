/** The binary chunk stream of the backend LAZ processor
    (backend/laz_processor.py, `stream_chunks_binary`): a LAS/LAZ file is cut into
    chunks, and each non-empty chunk is sent as metadata, interleaved float32
    positions and, when available, interleaved colours.

    The reader is a parameter: its header's point count and colour flag, and either
    the library's chunk iterator (the chunks it yields) or a function reading the
    points of a range. Float32 rounding, the byte encoding (`tobytes`), timings,
    memory and CPU figures are not modelled. */
module LazProcessor {
  import opened Common

  const CHUNK_SIZE_DEFAULT: nat := 200_000
  const COLOR_NORMALIZATION: real := 65535.0

  /** The red, green and blue arrays of a chunk whose records carry colour. */
  datatype Rgb = Rgb(red: seq<real>, green: seq<real>, blue: seq<real>)

  /** A chunk of point records: its x, y and z arrays, and its colour arrays when the
      records have `red`, `green` and `blue`. */
  datatype Chunk = Chunk(x: seq<real>, y: seq<real>, z: seq<real>, rgb: Option<Rgb>)

  /** Where the chunks come from: the reader's own chunk iterator, or `_slice_iter`
      reading ranges `[start, end)` of the file. */
  datatype ChunkSource = LibraryIterator(chunks: seq<Chunk>) | RangeReader(read: (nat, nat) -> Chunk)

  /** A range `[from, to)` of point indices. */
  datatype Range = Range(from: nat, to: nat)

  /** The metadata sent with a chunk (timings, progress and load figures left out). */
  datatype ChunkMeta = ChunkMeta(fileName: string, start: nat, count: nat, totalPoints: nat,
                                 chunkIndex: nat, totalChunksEst: nat, hasColor: bool)

  /** One yielded item: metadata, interleaved positions and interleaved colours. */
  datatype Yielded = Yielded(meta: ChunkMeta, positions: seq<real>, colors: Option<seq<real>>)

  /** Why the stream raises: the file is missing, it holds no points, or an axis array
      cannot be broadcast into the positions buffer. */
  datatype StreamError = FileMissing | EmptyFile | ShapeMismatch

  /** The values fixed for a whole stream. */
  datatype StreamContext = StreamContext(fileName: string, totalPoints: nat, totalChunksEst: nat)

  /** The generator's mutable locals: `has_color`, `start_index`, `chunk_index`. */
  datatype Progress = Progress(hasColor: bool, start: nat, chunkIndex: nat)

  // ---------------------------------------------------------------------------
  // Chunk size and the slice iterator
  // ---------------------------------------------------------------------------

  /** `chunk_size`, replaced by the default when missing or not positive. */
  function EffectiveChunkSize(chunkSize: Option<int>): (c: nat)
    ensures c > 0
    ensures chunkSize.Some? && chunkSize.value > 0 ==> c == chunkSize.value
    ensures chunkSize.None? || chunkSize.value <= 0 ==> c == CHUNK_SIZE_DEFAULT
  {
    if chunkSize.None? || chunkSize.value <= 0 then CHUNK_SIZE_DEFAULT else chunkSize.value
  }

  /** `est_total_chunks`: `max(1, ceil(total / chunk_size))`. */
  function EstTotalChunks(total: nat, chunkSize: nat): nat
    requires chunkSize > 0
  {
    Max(1, (total + chunkSize - 1) / chunkSize)
  }

  /** Multiplying by a natural number keeps the order. */
  lemma {:induction false} MulMonotone(a: nat, b: nat, c: nat)
    requires a <= b
    ensures a * c <= b * c
    decreases b - a
  {
    if a < b {
      MulMonotone(a, b - 1, c);
      assert b * c == (b - 1) * c + c;
    }
  }

  /** `k` is the number of chunks of size `c` it takes to cover `total` points. */
  lemma CeilingDivision(total: nat, c: nat, k: nat)
    requires c > 0 && total > 0
    requires (k - 1) * c < total <= k * c
    ensures k == (total + c - 1) / c
  {
    var t := total + c - 1;
    var q := t / c;
    assert t == q * c + t % c && 0 <= t % c < c;
    assert k * c == (k - 1) * c + c;
    assert (k + 1) * c == k * c + c;
    assert (q + 1) * c == q * c + c;
    if k < q {
      MulMonotone(k + 1, q, c);
    } else if k > q {
      MulMonotone(q + 1, k, c);
    }
  }

  /** The ranges `_slice_iter` reads from `idx` on. */
  function Slices(total: nat, csize: nat, idx: nat): seq<Range>
    requires csize > 0
    decreases total - idx
  {
    if idx >= total then [] else
    var end := Min(total, idx + csize);
    [Range(idx, end)] + Slices(total, csize, end)
  }

  /** Consecutive ranges meet: each starts where the previous one ends. */
  predicate Contiguous(rs: seq<Range>) {
    forall j :: 0 <= j && j + 1 < |rs| ==> rs[j].to == rs[j + 1].from
  }

  /** The slices from `idx` partition `[idx, total)` into contiguous non-empty ranges of
      `csize` points, the last possibly shorter. */
  lemma SlicesPartition(total: nat, csize: nat, idx: nat)
    requires csize > 0 && idx <= total
    ensures var s := Slices(total, csize, idx);
      (|s| == 0 <==> idx == total) &&
      (|s| > 0 ==> s[0].from == idx && s[|s| - 1].to == total) &&
      (forall j :: 0 <= j < |s| ==> s[j].from < s[j].to <= s[j].from + csize) &&
      Contiguous(s) &&
      (forall j :: 0 <= j && j + 1 < |s| ==> s[j].to - s[j].from == csize)
  {
    SlicesEnds(total, csize, idx);
    SlicesMeet(total, csize, idx);
  }

  /** The ends of the slices and the size of each. */
  lemma {:induction false} SlicesEnds(total: nat, csize: nat, idx: nat)
    requires csize > 0 && idx <= total
    ensures var s := Slices(total, csize, idx);
      (|s| == 0 <==> idx == total) &&
      (|s| > 0 ==> s[0].from == idx && s[|s| - 1].to == total) &&
      (forall j :: 0 <= j < |s| ==> s[j].from < s[j].to <= s[j].from + csize)
    decreases total - idx
  {
    if idx < total {
      var end := Min(total, idx + csize);
      SlicesEnds(total, csize, end);
      var t := Slices(total, csize, end);
      var s := [Range(idx, end)] + t;
      assert Slices(total, csize, idx) == s;
      assert forall j :: 0 < j < |s| ==> s[j] == t[j - 1];
    }
  }

  /** Consecutive slices meet, and every slice but the last is full. */
  lemma {:induction false} SlicesMeet(total: nat, csize: nat, idx: nat)
    requires csize > 0 && idx <= total
    ensures var s := Slices(total, csize, idx);
      Contiguous(s) && (forall j :: 0 <= j && j + 1 < |s| ==> s[j].to - s[j].from == csize)
    decreases total - idx
  {
    if idx < total {
      var end := Min(total, idx + csize);
      SlicesMeet(total, csize, end);
      SlicesEnds(total, csize, end);
      var t := Slices(total, csize, end);
      var s := [Range(idx, end)] + t;
      assert Slices(total, csize, idx) == s;
      assert forall j :: 0 < j < |s| ==> s[j] == t[j - 1];
      assert |t| > 0 ==> end == idx + csize && t[0].from == end;
    }
  }

  /** There are `ceil((total - idx) / csize)` slices from `idx`. */
  lemma {:induction false} SlicesLength(total: nat, csize: nat, idx: nat)
    requires csize > 0 && idx <= total
    ensures var k := |Slices(total, csize, idx)|; (k - 1) * csize < total - idx <= k * csize
    decreases total - idx
  {
    if idx < total {
      var end := Min(total, idx + csize);
      SlicesLength(total, csize, end);
      var k := |Slices(total, csize, end)|;
      assert |Slices(total, csize, idx)| == k + 1;
      assert (k + 1) * csize == k * csize + csize;
      if k == 0 {
        assert end == total;
      }
    }
  }

  /** The slice count is the chunk estimate whenever the file has points. */
  lemma SlicesCount(total: nat, csize: nat)
    requires csize > 0 && total > 0
    ensures |Slices(total, csize, 0)| == EstTotalChunks(total, csize)
  {
    SlicesLength(total, csize, 0);
    CeilingDivision(total, csize, |Slices(total, csize, 0)|);
  }

  /** `_slice_iter`: the ranges it reads, advancing `idx` to each range's end. */
  method SliceRanges(total: nat, csize: nat) returns (ranges: seq<Range>)
    requires csize > 0
    ensures ranges == Slices(total, csize, 0)
  {
    ranges := [];
    var idx := 0;
    while idx < total
      invariant idx <= total
      invariant ranges + Slices(total, csize, idx) == Slices(total, csize, 0)
      decreases total - idx
    {
      var end := Min(total, idx + csize);
      assert Slices(total, csize, idx) == [Range(idx, end)] + Slices(total, csize, end);
      ranges := ranges + [Range(idx, end)];
      idx := end;
    }
  }

  // ---------------------------------------------------------------------------
  // Strided interleaving
  // ---------------------------------------------------------------------------

  /** numpy accepts an array for a strided slot of `n` places when it has `n`
      elements or one element, which is broadcast. */
  predicate Fits(len: nat, n: nat) {
    len == n || len == 1
  }

  /** The value place `i` of `n` receives from `src` under broadcasting. */
  function Spread(src: seq<real>, n: nat, i: nat): real
    requires Fits(|src|, n) && i < n
  {
    if |src| == n then src[i] else src[0]
  }

  /** Channel `k` of three arrays. */
  function Channel(a: seq<real>, b: seq<real>, c: seq<real>, k: nat): seq<real> {
    if k == 0 then a else if k == 1 then b else c
  }

  /** `out[0::3] = a; out[1::3] = b; out[2::3] = c` on `np.empty(3 * n)`. */
  function Interleave(a: seq<real>, b: seq<real>, c: seq<real>, n: nat): (r: seq<real>)
    requires Fits(|a|, n) && Fits(|b|, n) && Fits(|c|, n)
    ensures |r| == 3 * n
  {
    seq(3 * n, j requires 0 <= j < 3 * n => Spread(Channel(a, b, c, j % 3), n, j / 3))
  }

  /** Place 3i+k of an interleaved buffer holds element i of channel k. */
  lemma InterleaveLayout(a: seq<real>, b: seq<real>, c: seq<real>, n: nat)
    requires Fits(|a|, n) && Fits(|b|, n) && Fits(|c|, n)
    ensures forall i, k :: 0 <= i < n && 0 <= k < 3 ==>
      Interleave(a, b, c, n)[3 * i + k] == Spread(Channel(a, b, c, k), n, i)
  {
  }

  /** A buffer laid out channel by channel is the interleaving. */
  lemma InterleaveFromLayout(r: seq<real>, a: seq<real>, b: seq<real>, c: seq<real>, n: nat)
    requires Fits(|a|, n) && Fits(|b|, n) && Fits(|c|, n) && |r| == 3 * n
    requires forall i :: 0 <= i < n ==> r[3 * i] == Spread(a, n, i)
    requires forall i :: 0 <= i < n ==> r[3 * i + 1] == Spread(b, n, i)
    requires forall i :: 0 <= i < n ==> r[3 * i + 2] == Spread(c, n, i)
    ensures r == Interleave(a, b, c, n)
  {
    forall j | 0 <= j < 3 * n
      ensures r[j] == Interleave(a, b, c, n)[j]
    {
      var i, k := j / 3, j % 3;
      assert j == 3 * i + k;
    }
  }

  /** `out[k::3] = src`. */
  method StridedAssign(out: array<real>, k: nat, src: seq<real>, n: nat)
    requires out.Length == 3 * n && k < 3 && Fits(|src|, n)
    modifies out
    ensures forall i :: 0 <= i < n ==> out[3 * i + k] == Spread(src, n, i)
    ensures forall j :: 0 <= j < out.Length && j % 3 != k ==> out[j] == old(out[j])
  {
    for i := 0 to n
      invariant forall i' :: 0 <= i' < i ==> out[3 * i' + k] == Spread(src, n, i')
      invariant forall j :: 0 <= j < out.Length && j % 3 != k ==> out[j] == old(out[j])
    {
      out[3 * i + k] := Spread(src, n, i);
    }
  }

  /** The three strided assignments into a fresh buffer. */
  method InterleaveInto(a: seq<real>, b: seq<real>, c: seq<real>, n: nat) returns (r: seq<real>)
    requires Fits(|a|, n) && Fits(|b|, n) && Fits(|c|, n)
    ensures r == Interleave(a, b, c, n)
  {
    var out := new real[3 * n];
    StridedAssign(out, 0, a, n);
    StridedAssign(out, 1, b, n);
    StridedAssign(out, 2, c, n);
    InterleaveFromLayout(out[..], a, b, c, n);
    r := out[..];
  }

  /** `np.asarray(channel) / COLOR_NORMALIZATION`. */
  function Scale(src: seq<real>): (r: seq<real>)
    ensures |r| == |src|
  {
    seq(|src|, i requires 0 <= i < |src| => src[i] / COLOR_NORMALIZATION)
  }

  /** The colour arrays can fill the colour buffer of an `n`-point chunk. */
  predicate ColorsFit(rgb: Rgb, n: nat) {
    Fits(|rgb.red|, n) && Fits(|rgb.green|, n) && Fits(|rgb.blue|, n)
  }

  // ---------------------------------------------------------------------------
  // Specification of the chunk loop
  // ---------------------------------------------------------------------------

  /** One pass of the `for chunk in chunk_iter` body: the new locals and what is
      yielded, or the error raised. */
  function StepChunk(chunk: Chunk, p: Progress, ctx: StreamContext): (r: Result<(Progress, Option<Yielded>), StreamError>)
    ensures r.Err? <==> |chunk.x| > 0 && !(Fits(|chunk.y|, |chunk.x|) && Fits(|chunk.z|, |chunk.x|))
    ensures r.Ok? ==> (r.value.1.None? <==> |chunk.x| == 0)
    ensures r.Ok? ==> r.value.0.start == p.start + |chunk.x|
    ensures r.Ok? && r.value.1.None? ==> r.value.0 == p.(hasColor := p.hasColor || chunk.rgb.Some?)
    ensures r.Ok? && r.value.1.Some? ==>
      var y := r.value.1.value;
      WellFormedItem(y) && y.meta.count == |chunk.x| &&
      y.meta.start == p.start && y.meta.chunkIndex == p.chunkIndex &&
      y.meta.fileName == ctx.fileName && y.meta.totalPoints == ctx.totalPoints &&
      y.meta.totalChunksEst == ctx.totalChunksEst &&
      r.value.0.chunkIndex == p.chunkIndex + 1 && r.value.0.hasColor == y.meta.hasColor
  {
    var hasColor := p.hasColor || chunk.rgb.Some?;
    var n := |chunk.x|;
    if n == 0 then Ok((p.(hasColor := hasColor), None))
    else if !Fits(|chunk.y|, n) || !Fits(|chunk.z|, n) then Err(ShapeMismatch)
    else
      var positions := Interleave(chunk.x, chunk.y, chunk.z, n);
      var colors :=
        if hasColor && chunk.rgb.Some? && ColorsFit(chunk.rgb.value, n)
        then Some(Interleave(Scale(chunk.rgb.value.red), Scale(chunk.rgb.value.green), Scale(chunk.rgb.value.blue), n))
        else None;
      var meta := ChunkMeta(ctx.fileName, p.start, n, ctx.totalPoints, p.chunkIndex, ctx.totalChunksEst, colors.Some?);
      Ok((Progress(colors.Some?, p.start + n, p.chunkIndex + 1), Some(Yielded(meta, positions, colors))))
  }

  /** The state of the generator after the first `n` chunks. */
  datatype RunState = RunState(items: seq<Yielded>, progress: Progress, err: Option<StreamError>)

  /** The chunk loop over the first `n` chunks; after an error nothing more happens. */
  function RunUpTo(chunks: seq<Chunk>, ctx: StreamContext, p0: Progress, n: nat): RunState
    requires n <= |chunks|
  {
    if n == 0 then RunState([], p0, None)
    else
      var r := RunUpTo(chunks, ctx, p0, n - 1);
      if r.err.Some? then r
      else match StepChunk(chunks[n - 1], r.progress, ctx)
        case Err(e) => r.(err := Some(e))
        case Ok(step) => RunState(r.items + (if step.1.Some? then [step.1.value] else []), step.0, None)
  }

  /** The chunks the generator iterates over. */
  function ChunksOf(source: ChunkSource, ranges: seq<Range>): seq<Chunk> {
    match source
    case LibraryIterator(chunks) => chunks
    case RangeReader(read) => seq(|ranges|, j requires 0 <= j < |ranges| => read(ranges[j].from, ranges[j].to))
  }

  /** The sum of the point counts of yielded items. */
  function SumCounts(items: seq<Yielded>): nat
    decreases |items|
  {
    if |items| == 0 then 0 else SumCounts(items[..|items| - 1]) + items[|items| - 1].meta.count
  }

  /** The sum of the chunk sizes among the first `n` chunks. */
  function SumSizes(chunks: seq<Chunk>, n: nat): nat
    requires n <= |chunks|
  {
    if n == 0 then 0 else SumSizes(chunks, n - 1) + |chunks[n - 1].x|
  }

  /** A well-formed item: it has points, three floats per point in each buffer, and its
      `has_color` says whether colour floats come with it. */
  predicate WellFormedItem(y: Yielded) {
    y.meta.count > 0 && |y.positions| == 3 * y.meta.count &&
    (y.meta.hasColor <==> y.colors.Some?) &&
    (y.colors.Some? ==> |y.colors.value| == 3 * y.meta.count)
  }

  /** Colours travel with a chunk exactly when the chunk's records have colour arrays
      that fit it: the per-chunk detection turns the flag on for any chunk with colour,
      so the header's flag never decides the outcome. Positions are the chunk's axes
      interleaved point by point. */
  lemma StepColors(chunk: Chunk, p: Progress, ctx: StreamContext)
    requires StepChunk(chunk, p, ctx).Ok? && StepChunk(chunk, p, ctx).value.1.Some?
    ensures var y := StepChunk(chunk, p, ctx).value.1.value;
      (y.colors.Some? <==> chunk.rgb.Some? && ColorsFit(chunk.rgb.value, |chunk.x|)) &&
      (forall i, k :: 0 <= i < |chunk.x| && 0 <= k < 3 ==>
         y.positions[3 * i + k] == Spread(Channel(chunk.x, chunk.y, chunk.z, k), |chunk.x|, i))
  {
    InterleaveLayout(chunk.x, chunk.y, chunk.z, |chunk.x|);
  }

  /** Once the loop has raised, later chunks change nothing. */
  lemma {:induction false} ErrorSticks(chunks: seq<Chunk>, ctx: StreamContext, p0: Progress, n: nat, m: nat)
    requires n <= m <= |chunks|
    requires RunUpTo(chunks, ctx, p0, n).err.Some?
    ensures RunUpTo(chunks, ctx, p0, m) == RunUpTo(chunks, ctx, p0, n)
    decreases m - n
  {
    if n < m {
      ErrorSticks(chunks, ctx, p0, n, m - 1);
    }
  }

  /** Item j of a stream is well formed, carries chunk index j, starts after the points
      of the items before it and carries the stream's constants. */
  predicate ItemInPlace(items: seq<Yielded>, j: nat, ctx: StreamContext)
    requires j < |items|
  {
    WellFormedItem(items[j]) && items[j].meta.chunkIndex == j &&
    items[j].meta.start == SumCounts(items[..j]) &&
    items[j].meta.fileName == ctx.fileName && items[j].meta.totalPoints == ctx.totalPoints &&
    items[j].meta.totalChunksEst == ctx.totalChunksEst
  }

  /** Appending an item numbered and placed after the others keeps every item in place. */
  lemma AppendInPlace(items: seq<Yielded>, y: Yielded, ctx: StreamContext)
    requires forall j :: 0 <= j < |items| ==> ItemInPlace(items, j, ctx)
    requires WellFormedItem(y) && y.meta.chunkIndex == |items| && y.meta.start == SumCounts(items)
    requires y.meta.fileName == ctx.fileName && y.meta.totalPoints == ctx.totalPoints
    requires y.meta.totalChunksEst == ctx.totalChunksEst
    ensures forall j :: 0 <= j < |items + [y]| ==> ItemInPlace(items + [y], j, ctx)
    ensures SumCounts(items + [y]) == SumCounts(items) + y.meta.count
  {
    var ext := items + [y];
    assert ext[..|items|] == items;
    forall j | 0 <= j < |items|
      ensures ItemInPlace(ext, j, ctx)
    {
      assert ext[..j] == items[..j];
      assert ItemInPlace(items, j, ctx);
    }
  }

  /** The counters over a run: every item is in place, and the locals end at the number
      of items and of points sent; empty chunks advance neither counter. */
  lemma {:induction false} RunCounters(chunks: seq<Chunk>, ctx: StreamContext, hasColor: bool, n: nat)
    requires n <= |chunks|
    ensures var r := RunUpTo(chunks, ctx, Progress(hasColor, 0, 0), n);
      r.progress.start == SumCounts(r.items) &&
      r.progress.chunkIndex == |r.items| &&
      forall j :: 0 <= j < |r.items| ==> ItemInPlace(r.items, j, ctx)
  {
    if n > 0 {
      var p0 := Progress(hasColor, 0, 0);
      RunCounters(chunks, ctx, hasColor, n - 1);
      var prev := RunUpTo(chunks, ctx, p0, n - 1);
      if prev.err.None? {
        var step := StepChunk(chunks[n - 1], prev.progress, ctx);
        if step.Err? {
          assert RunUpTo(chunks, ctx, p0, n) == prev.(err := Some(step.error));
        } else if step.value.1.Some? {
          AppendInPlace(prev.items, step.value.1.value, ctx);
          assert RunUpTo(chunks, ctx, p0, n) == RunState(prev.items + [step.value.1.value], step.value.0, None);
        } else {
          assert RunUpTo(chunks, ctx, p0, n) == RunState(prev.items, step.value.0, None);
        }
      }
    }
  }

  /** Without an error, the items account for every point of the chunks read. */
  lemma {:induction false} CountsAddUp(chunks: seq<Chunk>, ctx: StreamContext, p0: Progress, n: nat)
    requires n <= |chunks|
    requires RunUpTo(chunks, ctx, p0, n).err.None?
    ensures SumCounts(RunUpTo(chunks, ctx, p0, n).items) == SumSizes(chunks, n)
  {
    if n > 0 {
      var prev := RunUpTo(chunks, ctx, p0, n - 1);
      assert prev.err.None?;
      CountsAddUp(chunks, ctx, p0, n - 1);
      var step := StepChunk(chunks[n - 1], prev.progress, ctx);
      assert step.Ok?;
      if step.value.1.Some? {
        var items := prev.items + [step.value.1.value];
        assert RunUpTo(chunks, ctx, p0, n).items == items;
        assert items[..|items| - 1] == prev.items;
      } else {
        assert RunUpTo(chunks, ctx, p0, n).items == prev.items;
      }
    }
  }

  /** The total length of the first `n` ranges. */
  function RangeTotal(rs: seq<Range>, n: nat): int
    requires n <= |rs|
  {
    if n == 0 then 0 else RangeTotal(rs, n - 1) + (rs[n - 1].to - rs[n - 1].from)
  }

  /** Contiguous ranges add up to the distance they span. */
  lemma {:induction false} RangeTotalSpan(rs: seq<Range>, n: nat)
    requires 0 < n <= |rs| && Contiguous(rs)
    ensures RangeTotal(rs, n) == rs[n - 1].to - rs[0].from
  {
    if n > 1 {
      RangeTotalSpan(rs, n - 1);
    }
  }

  /** A reader returns exactly the points of the range it is asked for. */
  ghost predicate ReadsExactly(read: (nat, nat) -> Chunk) {
    forall a: nat, b: nat :: a <= b ==> |read(a, b).x| == b - a
  }

  /** With an exact reader, the chunks hold as many points as the ranges. */
  lemma {:induction false} ChunkSizesMatchRanges(read: (nat, nat) -> Chunk, rs: seq<Range>, n: nat)
    requires ReadsExactly(read) && n <= |rs|
    requires forall j :: 0 <= j < |rs| ==> rs[j].from <= rs[j].to
    ensures SumSizes(ChunksOf(RangeReader(read), rs), n) == RangeTotal(rs, n)
  {
    if n > 0 {
      ChunkSizesMatchRanges(read, rs, n - 1);
    }
  }

  /** `stream_chunks_binary` as a whole: the items it yields and the error it raises. */
  function Stream(fileName: string, fileExists: bool, totalPoints: nat, headerHasColor: bool,
                  source: ChunkSource, chunkSize: Option<int>): (seq<Yielded>, Option<StreamError>)
  {
    if !fileExists then ([], Some(FileMissing))
    else if totalPoints == 0 then ([], Some(EmptyFile))
    else
      var csize := EffectiveChunkSize(chunkSize);
      var ctx := StreamContext(fileName, totalPoints, EstTotalChunks(totalPoints, csize));
      var chunks := ChunksOf(source, Slices(totalPoints, csize, 0));
      var r := RunUpTo(chunks, ctx, Progress(headerHasColor, 0, 0), |chunks|);
      (r.items, r.err)
  }

  /** A missing or empty file raises before anything is yielded; every yielded item is
      well formed, numbered in order, starts after the points sent before it and
      carries the file's name, point count and chunk estimate. */
  lemma StreamItems(fileName: string, fileExists: bool, totalPoints: nat, headerHasColor: bool,
                    source: ChunkSource, chunkSize: Option<int>)
    ensures var out := Stream(fileName, fileExists, totalPoints, headerHasColor, source, chunkSize);
      (!fileExists ==> out == ([], Some(FileMissing))) &&
      (fileExists && totalPoints == 0 ==> out == ([], Some(EmptyFile))) &&
      forall j :: 0 <= j < |out.0| ==>
        ItemInPlace(out.0, j, StreamContext(fileName, totalPoints, EstTotalChunks(totalPoints, EffectiveChunkSize(chunkSize))))
  {
    if fileExists && totalPoints > 0 {
      var csize := EffectiveChunkSize(chunkSize);
      var ctx := StreamContext(fileName, totalPoints, EstTotalChunks(totalPoints, csize));
      var chunks := ChunksOf(source, Slices(totalPoints, csize, 0));
      RunCounters(chunks, ctx, headerHasColor, |chunks|);
    }
  }

  /** A stream read range by range that ends without an error has sent every point of
      the file exactly once: the counts of its items add up to the header's total. */
  lemma StreamDeliversEveryPoint(fileName: string, totalPoints: nat, headerHasColor: bool,
                                 read: (nat, nat) -> Chunk, chunkSize: Option<int>)
    requires ReadsExactly(read)
    requires Stream(fileName, true, totalPoints, headerHasColor, RangeReader(read), chunkSize).1.None?
    ensures SumCounts(Stream(fileName, true, totalPoints, headerHasColor, RangeReader(read), chunkSize).0) == totalPoints
  {
    var csize := EffectiveChunkSize(chunkSize);
    var ctx := StreamContext(fileName, totalPoints, EstTotalChunks(totalPoints, csize));
    var ranges := Slices(totalPoints, csize, 0);
    var chunks := ChunksOf(RangeReader(read), ranges);
    SlicesPartition(totalPoints, csize, 0);
    CountsAddUp(chunks, ctx, Progress(headerHasColor, 0, 0), |chunks|);
    ChunkSizesMatchRanges(read, ranges, |ranges|);
    if |ranges| > 0 {
      RangeTotalSpan(ranges, |ranges|);
    }
  }

  // ---------------------------------------------------------------------------
  // The generator
  // ---------------------------------------------------------------------------

  /** The body of the chunk loop for one chunk, on the generator's locals. */
  method ProcessChunk(chunk: Chunk, hasColorIn: bool, start: nat, chunkIndex: nat, ctx: StreamContext)
    returns (res: Result<(Progress, Option<Yielded>), StreamError>)
    ensures res == StepChunk(chunk, Progress(hasColorIn, start, chunkIndex), ctx)
  {
    var hasColor := hasColorIn;
    if !hasColor {
      hasColor := chunk.rgb.Some?;
    }
    var n := |chunk.x|;
    if n == 0 {
      return Ok((Progress(hasColor, start, chunkIndex), None));
    }
    if !Fits(|chunk.y|, n) || !Fits(|chunk.z|, n) {
      return Err(ShapeMismatch);
    }
    var positions := InterleaveInto(chunk.x, chunk.y, chunk.z, n);
    var colors: Option<seq<real>> := None;
    if hasColor {
      if chunk.rgb.Some? && ColorsFit(chunk.rgb.value, n) {
        var rgb := chunk.rgb.value;
        var c := InterleaveInto(Scale(rgb.red), Scale(rgb.green), Scale(rgb.blue), n);
        colors := Some(c);
      } else {
        hasColor := false;
      }
    }
    var meta := ChunkMeta(ctx.fileName, start, n, ctx.totalPoints, chunkIndex, ctx.totalChunksEst, colors.Some?);
    res := Ok((Progress(hasColor, start + n, chunkIndex + 1), Some(Yielded(meta, positions, colors))));
  }

  /** `stream_chunks_binary`: the items yielded, in order, and the error raised, if any. */
  method StreamChunksBinary(fileName: string, fileExists: bool, totalPoints: nat, headerHasColor: bool,
                            source: ChunkSource, chunkSize: Option<int>)
    returns (items: seq<Yielded>, err: Option<StreamError>)
    ensures (items, err) == Stream(fileName, fileExists, totalPoints, headerHasColor, source, chunkSize)
  {
    items := [];
    if !fileExists {
      return items, Some(FileMissing);
    }
    var csize := EffectiveChunkSize(chunkSize);
    if totalPoints == 0 {
      return items, Some(EmptyFile);
    }
    var hasColor := headerHasColor;
    var start, chunkIndex := 0, 0;
    var ctx := StreamContext(fileName, totalPoints, EstTotalChunks(totalPoints, csize));
    var chunks: seq<Chunk>;
    match source {
      case LibraryIterator(cs) =>
        chunks := cs;
      case RangeReader(read) =>
        var ranges := SliceRanges(totalPoints, csize);
        chunks := seq(|ranges|, j requires 0 <= j < |ranges| => read(ranges[j].from, ranges[j].to));
    }
    assert chunks == ChunksOf(source, Slices(totalPoints, csize, 0));
    ghost var p0 := Progress(headerHasColor, 0, 0);
    var i := 0;
    while i < |chunks|
      invariant i <= |chunks|
      invariant RunUpTo(chunks, ctx, p0, i) == RunState(items, Progress(hasColor, start, chunkIndex), None)
    {
      var res := ProcessChunk(chunks[i], hasColor, start, chunkIndex, ctx);
      if res.Err? {
        ErrorSticks(chunks, ctx, p0, i + 1, |chunks|);
        return items, Some(res.error);
      }
      hasColor, start, chunkIndex := res.value.0.hasColor, res.value.0.start, res.value.0.chunkIndex;
      if res.value.1.Some? {
        items := items + [res.value.1.value];
      }
      i := i + 1;
    }
    err := None;
  }
}

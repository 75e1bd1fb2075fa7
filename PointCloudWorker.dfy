/** The point-cloud worker (frontend/src/app/workers/point-cloud.worker.ts): it
    filters points by validity, builds flat position and colour buffers, and produces
    placeholder normals.

    Coordinates are `real`s; whether a point is valid (every coordinate finite and not
    NaN) is a parameter of the model. A Float32Array slot assigned `undefined` holds
    NaN, which `F32` keeps apart from the numbers. */
module PointCloudWorker {
  import opened Common

  /** `number[]`: one point or one colour. */
  type Point = seq<real>

  /** `isValidPoint`. */
  type Validity = Point -> bool

  /** A Float32Array element. */
  datatype F32 = Value(v: real) | NaN

  /** `colors`: None for `null`; an element is None when it is `undefined` or `null`. */
  type ColorList = Option<seq<Option<Point>>>

  /** The result of processPointCloudData; the reduction percentage is not modelled. */
  datatype Processed = Processed(points: seq<Point>, colors: Option<seq<Point>>,
                                 originalCount: nat, processedCount: nat)

  /** The result of createBufferGeometry. */
  datatype Geometry = Geometry(positions: seq<F32>, colors: Option<seq<F32>>, pointCount: nat)

  /** A message's `type` and `payload`. */
  datatype Request =
    | ProcessPointCloud(points: seq<Point>, colors: ColorList, hasColors: bool)
    | CreateGeometry(points: seq<Point>, colors: ColorList)
    | CalculateNormals(points: seq<Point>)
    | OtherRequest

  /** The message posted back. */
  datatype Response =
    | PointCloudProcessed(processed: Processed)
    | GeometryCreated(geometry: Geometry)
    | NormalsCalculated(normals: seq<real>)

  // ---------------------------------------------------------------------------
  // Specification
  // ---------------------------------------------------------------------------

  /** `colors && colors[i]`: the colour of point `i`, when there is one. */
  function ColorAt(colors: ColorList, i: nat): Option<Point> {
    if colors.Some? && i < |colors.value| then colors.value[i] else None
  }

  /** The valid points among the first `n`, in order. */
  function Kept(points: seq<Point>, valid: Validity, n: nat): (r: seq<Point>)
    requires n <= |points|
    ensures |r| <= n
    ensures forall p :: p in r ==> valid(p)
  {
    if n == 0 then []
    else Kept(points, valid, n - 1) + (if valid(points[n - 1]) then [points[n - 1]] else [])
  }

  /** The colours kept among the first `n` points: that of a valid point whose colour
      exists, when colours are wanted. */
  function KeptColors(points: seq<Point>, colors: ColorList, hasColors: bool, valid: Validity, n: nat): seq<Point>
    requires n <= |points|
  {
    if n == 0 then []
    else
      KeptColors(points, colors, hasColors, valid, n - 1) +
      (if valid(points[n - 1]) && hasColors && ColorAt(colors, n - 1).Some?
       then [ColorAt(colors, n - 1).value] else [])
  }

  /** The indices of the valid points among the first `n`, ascending. */
  function KeptIndices(points: seq<Point>, valid: Validity, n: nat): seq<nat>
    requires n <= |points|
  {
    if n == 0 then []
    else KeptIndices(points, valid, n - 1) + (if valid(points[n - 1]) then [n - 1] else [])
  }

  /** What processPointCloudData returns. */
  function ProcessedSpec(points: seq<Point>, colors: ColorList, hasColors: bool, valid: Validity): Processed {
    var kept := Kept(points, valid, |points|);
    var keptColors := KeptColors(points, colors, hasColors, valid, |points|);
    Processed(kept, if |keptColors| > 0 then Some(keptColors) else None, |points|, |kept|)
  }

  /** `point[k]` stored into a Float32Array: a missing coordinate is NaN. */
  function Slot(p: Point, k: nat): F32 {
    if k < |p| then Value(p[k]) else NaN
  }

  /** The colour slot for channel `k` of point `i`: 0 unless the colour exists. */
  function ColorSlot(colors: ColorList, i: nat, k: nat): F32 {
    match ColorAt(colors, i)
    case Some(c) => Slot(c, k)
    case None => Value(0.0)
  }

  /** The position buffer of createBufferGeometry for the first `n` points. */
  function GeometryPositions(points: seq<Point>, n: nat): (r: seq<F32>)
    requires n <= |points|
    ensures |r| == 3 * n
  {
    if n == 0 then []
    else GeometryPositions(points, n - 1) + [Slot(points[n - 1], 0), Slot(points[n - 1], 1), Slot(points[n - 1], 2)]
  }

  /** The colour buffer of createBufferGeometry for the first `n` points, when `colors`
      is not null. */
  function GeometryColors(points: seq<Point>, colors: ColorList, n: nat): (r: seq<F32>)
    requires n <= |points|
    ensures |r| == 3 * n
  {
    if n == 0 then []
    else GeometryColors(points, colors, n - 1) + [ColorSlot(colors, n - 1, 0), ColorSlot(colors, n - 1, 1), ColorSlot(colors, n - 1, 2)]
  }

  /** The layout of the geometry buffers: coordinate `k` of point `i` sits at 3i+k (a
      missing coordinate is NaN), and so does channel `k` of its colour (0 when the
      point has no colour). */
  lemma {:induction false} GeometryLayout(points: seq<Point>, colors: ColorList, n: nat)
    requires n <= |points|
    ensures forall i, k :: 0 <= i < n && 0 <= k < 3 ==>
      GeometryPositions(points, n)[3 * i + k] == Slot(points[i], k) &&
      GeometryColors(points, colors, n)[3 * i + k] == ColorSlot(colors, i, k)
    decreases n
  {
    if n > 0 {
      GeometryLayout(points, colors, n - 1);
    }
  }

  /** One more point extends both buffers by its three places. */
  lemma GeometryStep(points: seq<Point>, colors: ColorList, i: nat)
    requires i < |points|
    ensures forall j :: 0 <= j < 3 * i ==>
      GeometryPositions(points, i + 1)[j] == GeometryPositions(points, i)[j] &&
      GeometryColors(points, colors, i + 1)[j] == GeometryColors(points, colors, i)[j]
    ensures GeometryPositions(points, i + 1)[3 * i] == Slot(points[i], 0)
    ensures GeometryPositions(points, i + 1)[3 * i + 1] == Slot(points[i], 1)
    ensures GeometryPositions(points, i + 1)[3 * i + 2] == Slot(points[i], 2)
    ensures GeometryColors(points, colors, i + 1)[3 * i] == ColorSlot(colors, i, 0)
    ensures GeometryColors(points, colors, i + 1)[3 * i + 1] == ColorSlot(colors, i, 1)
    ensures GeometryColors(points, colors, i + 1)[3 * i + 2] == ColorSlot(colors, i, 2)
  {
  }

  // ---------------------------------------------------------------------------
  // Properties of the filter
  // ---------------------------------------------------------------------------

  /** The kept points are exactly the valid ones in their original order: the kept
      list is the points at the ascending indices of the valid ones. */
  lemma {:induction false} KeptExactly(points: seq<Point>, valid: Validity, n: nat)
    requires n <= |points|
    ensures |Kept(points, valid, n)| == |KeptIndices(points, valid, n)|
    ensures forall j :: 0 <= j < |KeptIndices(points, valid, n)| ==>
      KeptIndices(points, valid, n)[j] < n && Kept(points, valid, n)[j] == points[KeptIndices(points, valid, n)[j]]
    ensures forall a, b :: 0 <= a < b < |KeptIndices(points, valid, n)| ==>
      KeptIndices(points, valid, n)[a] < KeptIndices(points, valid, n)[b]
    ensures forall i :: 0 <= i < n ==> (i in KeptIndices(points, valid, n) <==> valid(points[i]))
    decreases n
  {
    if n > 0 {
      KeptExactly(points, valid, n - 1);
      var ix := KeptIndices(points, valid, n - 1);
      forall i | 0 <= i < n
        ensures i in KeptIndices(points, valid, n) <==> valid(points[i])
      {
        if i < n - 1 {
          assert i in KeptIndices(points, valid, n) <==> i in ix;
        }
      }
    }
  }

  /** Never more colours are kept than points: each kept colour belongs to a kept point. */
  lemma {:induction false} ColorsWithinPoints(points: seq<Point>, colors: ColorList, hasColors: bool, valid: Validity, n: nat)
    requires n <= |points|
    ensures |KeptColors(points, colors, hasColors, valid, n)| <= |Kept(points, valid, n)|
    ensures !hasColors || colors.None? ==> KeptColors(points, colors, hasColors, valid, n) == []
    decreases n
  {
    if n > 0 {
      ColorsWithinPoints(points, colors, hasColors, valid, n - 1);
    }
  }

  /** The counts of a processed cloud: the processed count is the number of kept points
      and never exceeds the original count; colours are null when none were kept, and
      otherwise no more numerous than the kept points. */
  lemma ProcessedCounts(points: seq<Point>, colors: ColorList, hasColors: bool, valid: Validity)
    ensures var r := ProcessedSpec(points, colors, hasColors, valid);
      r.processedCount == |r.points| <= r.originalCount == |points| &&
      (r.colors.Some? ==> 0 < |r.colors.value| <= |r.points|)
  {
    KeptExactly(points, valid, |points|);
    ColorsWithinPoints(points, colors, hasColors, valid, |points|);
  }

  // ---------------------------------------------------------------------------
  // The worker's functions
  // ---------------------------------------------------------------------------

  /** processPointCloudData: the filtering loop. */
  method ProcessPointCloudData(points: seq<Point>, colors: ColorList, hasColors: bool, valid: Validity)
    returns (r: Processed)
    ensures r == ProcessedSpec(points, colors, hasColors, valid)
  {
    var processedPoints: seq<Point> := [];
    var processedColors: seq<Point> := [];
    for i := 0 to |points|
      invariant processedPoints == Kept(points, valid, i)
      invariant processedColors == KeptColors(points, colors, hasColors, valid, i)
    {
      var point := points[i];
      if valid(point) {
        processedPoints := processedPoints + [point];
        if hasColors && colors.Some? && i < |colors.value| && colors.value[i].Some? {
          processedColors := processedColors + [colors.value[i].value];
        }
      }
    }
    r := Processed(processedPoints, if |processedColors| > 0 then Some(processedColors) else None,
                   |points|, |processedPoints|);
  }

  /** createBufferGeometry: a position triple per point, and a colour triple per point
      whose colour exists when colours are given. */
  method CreateBufferGeometry(points: seq<Point>, colors: ColorList) returns (g: Geometry)
    ensures g.positions == GeometryPositions(points, |points|)
    ensures g.colors.Some? <==> colors.Some?
    ensures g.colors.Some? ==> g.colors.value == GeometryColors(points, colors, |points|)
    ensures g.pointCount == |points|
  {
    var positions := new F32[3 * |points|](_ => Value(0.0));
    var colorArray: array<F32> := new F32[if colors.Some? then 3 * |points| else 0](_ => Value(0.0));
    for i := 0 to |points|
      invariant forall j :: 0 <= j < 3 * i ==> positions[j] == GeometryPositions(points, i)[j]
      invariant colors.Some? ==> colorArray.Length == 3 * |points|
      invariant colors.Some? ==> forall j :: 0 <= j < 3 * i ==> colorArray[j] == GeometryColors(points, colors, i)[j]
      invariant colors.Some? ==> forall j :: 3 * i <= j < colorArray.Length ==> colorArray[j] == Value(0.0)
    {
      WritePoint(positions, colorArray, points, colors, i);
    }
    g := Geometry(positions[..], if colors.Some? then Some(colorArray[..]) else None, |points|);
  }

  /** One iteration of the geometry loop: the buffers hold the first `i + 1` points. */
  method WritePoint(positions: array<F32>, colorArray: array<F32>, points: seq<Point>, colors: ColorList, i: nat)
    requires i < |points| && positions.Length == 3 * |points| && positions != colorArray
    requires forall j :: 0 <= j < 3 * i ==> positions[j] == GeometryPositions(points, i)[j]
    requires colors.Some? ==> colorArray.Length == 3 * |points|
    requires colors.Some? ==> forall j :: 0 <= j < 3 * i ==> colorArray[j] == GeometryColors(points, colors, i)[j]
    requires colors.Some? ==> forall j :: 3 * i <= j < colorArray.Length ==> colorArray[j] == Value(0.0)
    modifies positions, colorArray
    ensures forall j :: 0 <= j < 3 * i + 3 ==> positions[j] == GeometryPositions(points, i + 1)[j]
    ensures colors.Some? ==> forall j :: 0 <= j < 3 * i + 3 ==> colorArray[j] == GeometryColors(points, colors, i + 1)[j]
    ensures colors.Some? ==> forall j :: 3 * i + 3 <= j < colorArray.Length ==> colorArray[j] == Value(0.0)
  {
    WritePosition(positions, points[i], i);
    if colors.Some? {
      WriteColor(colorArray, colors, i);
    }
    GeometryStep(points, colors, i);
  }

  /** The position writes of one iteration: `positions[i * 3 + k] = point[k]`. */
  method WritePosition(positions: array<F32>, point: Point, i: nat)
    requires 3 * i + 3 <= positions.Length
    modifies positions
    ensures positions[3 * i] == Slot(point, 0)
    ensures positions[3 * i + 1] == Slot(point, 1)
    ensures positions[3 * i + 2] == Slot(point, 2)
    ensures forall j :: 0 <= j < positions.Length && (j < 3 * i || 3 * i + 3 <= j) ==> positions[j] == old(positions[j])
  {
    Store3(positions, i * 3, Slot(point, 0), Slot(point, 1), Slot(point, 2));
  }

  /** The colour writes of one iteration: `colors[i]`'s channels when it exists; the
      slots otherwise keep the 0 they were created with. */
  method WriteColor(colorArray: array<F32>, colors: ColorList, i: nat)
    requires 3 * i + 3 <= colorArray.Length
    requires colorArray[3 * i] == Value(0.0) && colorArray[3 * i + 1] == Value(0.0) && colorArray[3 * i + 2] == Value(0.0)
    modifies colorArray
    ensures colorArray[3 * i] == ColorSlot(colors, i, 0)
    ensures colorArray[3 * i + 1] == ColorSlot(colors, i, 1)
    ensures colorArray[3 * i + 2] == ColorSlot(colors, i, 2)
    ensures forall j :: 0 <= j < colorArray.Length && (j < 3 * i || 3 * i + 3 <= j) ==> colorArray[j] == old(colorArray[j])
  {
    if colors.Some? && i < |colors.value| && colors.value[i].Some? {
      var c := colors.value[i].value;
      Store3(colorArray, i * 3, Slot(c, 0), Slot(c, 1), Slot(c, 2));
    }
  }

  /** calculatePointNormals: every point gets the upward normal (0, 0, 1). */
  method CalculatePointNormals(points: seq<Point>) returns (normals: array<real>)
    ensures normals.Length == 3 * |points|
    ensures forall j :: 0 <= j < normals.Length ==> normals[j] == if j % 3 == 2 then 1.0 else 0.0
  {
    normals := new real[3 * |points|](_ => 0.0);
    for i := 0 to |points|
      invariant forall j :: 0 <= j < 3 * i ==> normals[j] == if j % 3 == 2 then 1.0 else 0.0
    {
      normals[i * 3] := 0.0;
      normals[i * 3 + 1] := 0.0;
      normals[i * 3 + 2] := 1.0;
    }
  }

  /** The message listener: one response per known request type, none otherwise. */
  method HandleRequest(req: Request, valid: Validity) returns (resp: Option<Response>)
    ensures req.OtherRequest? <==> resp.None?
    ensures req.ProcessPointCloud? ==>
      resp == Some(PointCloudProcessed(ProcessedSpec(req.points, req.colors, req.hasColors, valid)))
    ensures req.CreateGeometry? ==>
      (resp.Some? && resp.value.GeometryCreated? &&
       resp.value.geometry.positions == GeometryPositions(req.points, |req.points|) &&
       (resp.value.geometry.colors.Some? <==> req.colors.Some?) &&
       (resp.value.geometry.colors.Some? ==>
          resp.value.geometry.colors.value == GeometryColors(req.points, req.colors, |req.points|)) &&
       resp.value.geometry.pointCount == |req.points|)
    ensures req.CalculateNormals? ==>
      (resp.Some? && resp.value.NormalsCalculated? && |resp.value.normals| == 3 * |req.points| &&
       forall j :: 0 <= j < |resp.value.normals| ==> resp.value.normals[j] == if j % 3 == 2 then 1.0 else 0.0)
  {
    match req {
      case ProcessPointCloud(points, colors, hasColors) =>
        var r := ProcessPointCloudData(points, colors, hasColors, valid);
        resp := Some(PointCloudProcessed(r));
      case CreateGeometry(points, colors) =>
        var g := CreateBufferGeometry(points, colors);
        resp := Some(GeometryCreated(g));
      case CalculateNormals(points) =>
        var normals := CalculatePointNormals(points);
        resp := Some(NormalsCalculated(normals[..]));
      case OtherRequest =>
        resp := None;
    }
  }
}

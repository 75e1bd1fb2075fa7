/** The `process-batch` handler of the data-processor worker
    (frontend/src/app/workers/data-processor.worker.ts): every file of a batch is
    normalised into flat position and colour buffers, and the reply transfers every
    buffer it carries.

    Numbers are `real`s (Float32 rounding is not modelled); entries of nested arrays
    are numbers or missing, and a missing one (`undefined`/`null`) reads as 0 through
    `?? 0`. */
module DataProcessorWorker {
  import opened Common

  /** One entry of a nested `[x, y, z]` or `[r, g, b]` array: None when missing. */
  type Slot = Option<real>

  /** An element of a nested list: None for a `null`/`undefined` element. */
  type NestedRow = Option<seq<Slot>>

  /** The `positions` field of an input file. */
  datatype PositionsField =
    | NoPositions                  // absent or falsy
    | PosBuffer(bytes: seq<byte>)  // an ArrayBuffer, or a typed-array view by its whole underlying buffer
    | PosList(values: seq<real>)   // a plain array of numbers
    | PosOther                     // any other truthy value

  /** The `colors` field of an input file. A plain array is nested exactly when its
      first element is an array, so a nested list is written with its first row apart. */
  datatype ColorsField =
    | NoColors
    | ColBuffer(bytes: seq<byte>)
    | ColList(values: seq<real>)
    | ColNested(first: seq<Slot>, rest: seq<NestedRow>)
    | ColOther

  /** An input file: `file_name`, `fileName`, `positions`, `points` (None when it is not
      an array), `colors` and `total_points`. */
  datatype FileIn = FileIn(fileNameField: Option<string>, fileNameAlt: Option<string>,
                           positions: PositionsField, points: Option<seq<NestedRow>>,
                           colors: ColorsField, totalPoints: Option<real>)

  /** An entry of the reply: None stands for a `null` buffer. */
  datatype FileOut = FileOut(fileName: string, totalPoints: real,
                             positions: Option<seq<real>>, colors: Option<seq<real>>)

  /** A buffer of the transfer list, named by the reply entry that carries it. */
  datatype BufferRef = PositionsBuffer(file: nat) | ColorsBuffer(file: nat)

  /** `{type: 'batch_result', files}` posted with its transfer list. */
  datatype Reply = BatchResult(files: seq<FileOut>, transfer: seq<BufferRef>)

  /** A message the worker receives; `files` is None when it is not an array. */
  datatype Message = ProcessBatch(files: Option<seq<FileIn>>) | OtherMessage

  // ---------------------------------------------------------------------------
  // Specification
  // ---------------------------------------------------------------------------

  /** `row[k] ?? 0`. */
  function SlotValue(row: seq<Slot>, k: nat): real {
    if k < |row| && row[k].Some? then row[k].value else 0.0
  }

  /** Coordinate `k` of `points[i] || [0, 0, 0]`. */
  function Coord(p: NestedRow, k: nat): real {
    match p
    case None => 0.0
    case Some(row) => SlotValue(row, k)
  }

  /** The flattened positions of a nested point list. */
  function FlatPoints(points: seq<NestedRow>): (r: seq<real>)
    ensures |r| == 3 * |points|
    ensures forall i, k :: 0 <= i < |points| && 0 <= k < 3 ==> r[3 * i + k] == Coord(points[i], k)
  {
    seq(3 * |points|, j requires 0 <= j < 3 * |points| => Coord(points[j / 3], j % 3))
  }

  /** A colour triple as the worker stores it: scaled down by 255 when some channel
      exceeds 1. */
  function Normalise(r: real, g: real, b: real): (c: seq<real>)
    ensures |c| == 3
  {
    if r > 1.0 || g > 1.0 || b > 1.0 then [r / 255.0, g / 255.0, b / 255.0] else [r, g, b]
  }

  function RowColors(row: seq<Slot>): (c: seq<real>)
    ensures |c| == 3
  {
    Normalise(SlotValue(row, 0), SlotValue(row, 1), SlotValue(row, 2))
  }

  /** The index of the first missing row: reading a channel of it throws a TypeError,
      which ends the colour loop. */
  function FirstMissing(rows: seq<NestedRow>): (n: nat)
    ensures n <= |rows|
    ensures forall i :: 0 <= i < n ==> rows[i].Some?
    ensures n < |rows| ==> rows[n].None?
    decreases |rows|
  {
    if |rows| == 0 || rows[0].None? then 0 else 1 + FirstMissing(rows[1..])
  }

  /** The channels of rows that are all present, row after row. */
  function Rendered(rows: seq<NestedRow>): (r: seq<real>)
    requires forall t :: 0 <= t < |rows| ==> rows[t].Some?
    ensures |r| == 3 * |rows|
    decreases |rows|
  {
    if |rows| == 0 then [] else Rendered(rows[..|rows| - 1]) + RowColors(rows[|rows| - 1].value)
  }

  /** `n` zeros: a fresh Float32Array of length n. */
  function Zeros(n: nat): (z: seq<real>)
    ensures |z| == n && forall j :: 0 <= j < n ==> z[j] == 0.0
  {
    seq(n, _ => 0.0)
  }

  /** The colour buffer of a nested colour list: the normalised channels of the rows
      before the first missing one, then the zeros the loop never overwrote. */
  function NestedColors(rows: seq<NestedRow>): (r: seq<real>)
    ensures |r| == 3 * |rows|
  {
    var n := FirstMissing(rows);
    Rendered(rows[..n]) + Zeros(3 * (|rows| - n))
  }

  /** Row `t` of a rendered list occupies places 3t, 3t+1 and 3t+2. */
  lemma {:induction false} RenderedLayout(rows: seq<NestedRow>)
    requires forall t :: 0 <= t < |rows| ==> rows[t].Some?
    ensures forall t, k :: 0 <= t < |rows| && 0 <= k < 3 ==>
      Rendered(rows)[3 * t + k] == RowColors(rows[t].value)[k]
    decreases |rows|
  {
    if |rows| > 0 {
      var n := |rows| - 1;
      RenderedLayout(rows[..n]);
      forall t, k | 0 <= t < |rows| && 0 <= k < 3
        ensures Rendered(rows)[3 * t + k] == RowColors(rows[t].value)[k]
      {
        if t < n {
          assert rows[..n][t] == rows[t];
        }
      }
    }
  }

  /** The three places of row `i` before the first missing row. */
  lemma NestedColorsAt(rows: seq<NestedRow>, i: nat)
    requires i < FirstMissing(rows)
    ensures NestedColors(rows)[3 * i] == RowColors(rows[i].value)[0]
    ensures NestedColors(rows)[3 * i + 1] == RowColors(rows[i].value)[1]
    ensures NestedColors(rows)[3 * i + 2] == RowColors(rows[i].value)[2]
  {
    NestedColorsLayout(rows);
  }

  /** The layout of the nested colour buffer: each row before the first missing one
      holds its three normalised channels, and every place after is 0. */
  lemma NestedColorsLayout(rows: seq<NestedRow>)
    ensures forall t, k :: 0 <= t < FirstMissing(rows) && 0 <= k < 3 ==>
      NestedColors(rows)[3 * t + k] == RowColors(rows[t].value)[k]
    ensures forall j :: 3 * FirstMissing(rows) <= j < |NestedColors(rows)| ==> NestedColors(rows)[j] == 0.0
  {
    var n := FirstMissing(rows);
    RenderedLayout(rows[..n]);
    forall t, k | 0 <= t < n && 0 <= k < 3
      ensures NestedColors(rows)[3 * t + k] == RowColors(rows[t].value)[k]
    {
      assert rows[..n][t] == rows[t];
    }
  }

  /** `new Float32Array(buffer)`: a RangeError unless the length is a multiple of four. */
  function BufferFloats(bytes: seq<byte>, decode: FloatDecoder): Result<seq<real>, string> {
    if |bytes| % 4 == 0 then Ok(decode(bytes)) else Err("RangeError")
  }

  /** The positions part of the try block: the positions it leaves, or the error it throws. */
  function PositionsStep(f: FileIn, decode: FloatDecoder): Result<Option<seq<real>>, string> {
    match f.positions
    case PosBuffer(bytes) =>
      (match BufferFloats(bytes, decode)
       case Ok(v) => Ok(Some(v))
       case Err(e) => Err(e))
    case PosList(values) => Ok(Some(values))
    case PosOther => Ok(None)
    case NoPositions => if f.points.Some? then Ok(Some(FlatPoints(f.points.value))) else Ok(None)
  }

  /** The colours the try block leaves once it reaches the colour part. A RangeError
      leaves them null; a missing nested row leaves the partly filled buffer. */
  function ColorsStep(f: FileIn, decode: FloatDecoder): Option<seq<real>> {
    match f.colors
    case ColBuffer(bytes) => if |bytes| % 4 == 0 then Some(decode(bytes)) else None
    case ColList(values) => Some(values)
    case ColNested(first, rest) => Some(NestedColors([Some(first)] + rest))
    case NoColors => None
    case ColOther => None
  }

  /** `a || fallback` on an optional string: the empty string is falsy. */
  function OrElse(a: Option<string>, fallback: string): string {
    if a.Some? && a.value != "" then a.value else fallback
  }

  /** `f.file_name || f.fileName || 'unk'`. */
  function FileName(f: FileIn): (name: string)
    ensures name != ""
    ensures Some(name) == f.fileNameField || Some(name) == f.fileNameAlt || name == "unk"
    ensures f.fileNameField.Some? && f.fileNameField.value != "" ==> name == f.fileNameField.value
  {
    OrElse(f.fileNameField, OrElse(f.fileNameAlt, "unk"))
  }

  /** `f.total_points || 0`. */
  function DeclaredTotal(f: FileIn): real {
    match f.totalPoints
    case Some(t) => t
    case None => 0.0
  }

  /** The reply entry for one input file. A throw in the positions part skips the
      colour part, so both buffers are then null. */
  function Normalised(f: FileIn, decode: FloatDecoder): FileOut {
    var step := PositionsStep(f, decode);
    var positions := if step.Ok? then step.value else None;
    var colors := if step.Ok? then ColorsStep(f, decode) else None;
    FileOut(FileName(f),
            if positions.Some? then |positions.value| as real / 3.0 else DeclaredTotal(f),
            positions, colors)
  }

  /** The buffers one reply entry contributes to the transfer list. */
  function RefsOf(i: nat, out: FileOut): (refs: seq<BufferRef>)
    ensures forall r :: r in refs ==> r.file == i
    ensures forall a, b :: 0 <= a < b < |refs| ==> Rank(refs[a]) < Rank(refs[b])
  {
    (if out.positions.Some? then [PositionsBuffer(i)] else []) +
    (if out.colors.Some? then [ColorsBuffer(i)] else [])
  }

  /** The transfer list for the reply entries `outs`. */
  function TransferOf(outs: seq<FileOut>): seq<BufferRef>
    decreases |outs|
  {
    if |outs| == 0 then []
    else TransferOf(outs[..|outs| - 1]) + RefsOf(|outs| - 1, outs[|outs| - 1])
  }

  /** The reply entries `outs` carry the buffer `r`. */
  predicate Carries(outs: seq<FileOut>, r: BufferRef) {
    r.file < |outs| &&
    match r
    case PositionsBuffer(i) => outs[i].positions.Some?
    case ColorsBuffer(i) => outs[i].colors.Some?
  }

  /** The place of a buffer in file order: a file's positions come before its colours. */
  function Rank(r: BufferRef): nat {
    match r
    case PositionsBuffer(i) => 2 * i
    case ColorsBuffer(i) => 2 * i + 1
  }

  // ---------------------------------------------------------------------------
  // Properties
  // ---------------------------------------------------------------------------

  /** A truthy `positions` field wins: the `points` field is then never read. */
  lemma PositionsTakePrecedence(f: FileIn, points: Option<seq<NestedRow>>, decode: FloatDecoder)
    requires f.positions != NoPositions
    ensures Normalised(f.(points := points), decode) == Normalised(f, decode)
  {
  }

  /** The point total is a third of the positions length when positions exist (the
      number of nested points when they came from `points`), and the declared total
      otherwise. */
  lemma TotalPointsRule(f: FileIn, decode: FloatDecoder)
    ensures var out := Normalised(f, decode);
      (out.positions.Some? ==> 3.0 * out.totalPoints == |out.positions.value| as real) &&
      (out.positions.None? ==> out.totalPoints == DeclaredTotal(f))
    ensures f.positions == NoPositions && f.points.Some? ==>
      Normalised(f, decode).totalPoints == |f.points.value| as real
  {
  }

  /** A bad positions buffer throws before the colours are read: the entry carries
      neither buffer. */
  lemma PositionsErrorDropsColors(f: FileIn, decode: FloatDecoder)
    requires f.positions.PosBuffer? && |f.positions.bytes| % 4 != 0
    ensures Normalised(f, decode).positions.None? && Normalised(f, decode).colors.None?
    ensures Normalised(f, decode).totalPoints == DeclaredTotal(f)
  {
  }

  /** A triple is scaled exactly when some channel exceeds 1. */
  lemma NormaliseScalesExactly(r: real, g: real, b: real)
    ensures Normalise(r, g, b) != [r, g, b] <==> r > 1.0 || g > 1.0 || b > 1.0
  {
    if r > 1.0 || g > 1.0 || b > 1.0 {
      var c := Normalise(r, g, b);
      if r > 1.0 { assert c[0] < r; }
      else if g > 1.0 { assert c[1] < g; }
      else { assert c[2] < b; }
    }
  }

  /** Channels in the byte range [0, 255] come out in [0, 1]. */
  lemma NormaliseIntoUnitRange(r: real, g: real, b: real)
    requires 0.0 <= r <= 255.0 && 0.0 <= g <= 255.0 && 0.0 <= b <= 255.0
    ensures forall k :: 0 <= k < 3 ==> 0.0 <= Normalise(r, g, b)[k] <= 1.0
  {
  }

  /** The transfer list holds exactly the buffers the reply carries. */
  lemma {:induction false} TransferComplete(outs: seq<FileOut>)
    ensures forall r :: r in TransferOf(outs) <==> Carries(outs, r)
    decreases |outs|
  {
    if |outs| > 0 {
      var n := |outs| - 1;
      TransferComplete(outs[..n]);
      forall r
        ensures r in TransferOf(outs) <==> Carries(outs, r)
      {
        assert r in TransferOf(outs) <==> r in TransferOf(outs[..n]) || r in RefsOf(n, outs[n]);
        assert Carries(outs[..n], r) <==> Carries(outs, r) && r.file < n;
      }
    }
  }

  /** The transfer list is in file order, a file's positions before its colours, so no
      (file, slot) is listed twice. Inputs that are views of one ArrayBuffer would still
      list that buffer twice; buffer identity is not part of this model. */
  lemma {:induction false} TransferOrdered(outs: seq<FileOut>)
    ensures forall r :: r in TransferOf(outs) ==> r.file < |outs|
    ensures forall i, j :: 0 <= i < j < |TransferOf(outs)| ==> Rank(TransferOf(outs)[i]) < Rank(TransferOf(outs)[j])
    decreases |outs|
  {
    if |outs| > 0 {
      var n := |outs| - 1;
      TransferOrdered(outs[..n]);
      var t0 := TransferOf(outs[..n]);
      var extra := RefsOf(n, outs[n]);
      var t := t0 + extra;
      assert TransferOf(outs) == t;
      forall i, j | 0 <= i < j < |t|
        ensures Rank(t[i]) < Rank(t[j])
      {
        if j < |t0| {
          assert t[i] == t0[i] && t[j] == t0[j];
        } else if i < |t0| {
          assert t[i] == t0[i] && t[i] in t0 && t[j] == extra[j - |t0|];
        } else {
          assert t[i] == extra[i - |t0|] && t[j] == extra[j - |t0|];
        }
      }
    }
  }

  // ---------------------------------------------------------------------------
  // The worker's loops
  // ---------------------------------------------------------------------------

  /** The loop that flattens `points` into a fresh Float32Array with a running index. */
  method FlattenPoints(points: seq<NestedRow>) returns (positions: array<real>)
    ensures positions[..] == FlatPoints(points)
  {
    positions := new real[3 * |points|](_ => 0.0);
    var k := 0;
    for i := 0 to |points|
      invariant k == 3 * i
      invariant forall j :: 0 <= j < k ==> positions[j] == Coord(points[j / 3], j % 3)
    {
      var p := points[i];
      assert k / 3 == i && (k + 1) / 3 == i && (k + 2) / 3 == i;
      positions[k] := Coord(p, 0);
      k := k + 1;
      positions[k] := Coord(p, 1);
      k := k + 1;
      positions[k] := Coord(p, 2);
      k := k + 1;
    }
  }

  /** The channels of one nested colour row, scaled when one exceeds 1. */
  method ReadColor(row: seq<Slot>) returns (r: real, g: real, b: real)
    ensures r == RowColors(row)[0] && g == RowColors(row)[1] && b == RowColors(row)[2]
  {
    r := SlotValue(row, 0);
    g := SlotValue(row, 1);
    b := SlotValue(row, 2);
    if r > 1.0 || g > 1.0 || b > 1.0 {
      r := r / 255.0;
      g := g / 255.0;
      b := b / 255.0;
    }
  }

  /** The nested-colour loop: it normalises row after row and stops at the first
      missing row, whose channel read throws. */
  method FillNestedColors(rows: seq<NestedRow>) returns (colors: array<real>)
    ensures colors[..] == NestedColors(rows)
  {
    colors := new real[3 * |rows|](_ => 0.0);
    var idx := 0;
    var i := 0;
    while i < |rows| && rows[i].Some?
      invariant 0 <= i <= FirstMissing(rows)
      invariant idx == 3 * i
      invariant forall j :: 0 <= j < idx ==> colors[j] == NestedColors(rows)[j]
      invariant forall j :: idx <= j < colors.Length ==> colors[j] == 0.0
    {
      var r, g, b := ReadColor(rows[i].value);
      NestedColorsAt(rows, i);
      Store3(colors, idx, r, g, b);
      idx := idx + 3;
      i := i + 1;
    }
    NestedColorsLayout(rows);
  }

  /** The body of the per-file loop: the try block, then the reply entry. */
  method NormaliseFile(f: FileIn, decode: FloatDecoder) returns (out: FileOut)
    ensures out == Normalised(f, decode)
  {
    var positions: Option<seq<real>> := None;
    var colors: Option<seq<real>> := None;
    var threw := false;
    match f.positions {
      case PosBuffer(bytes) =>
        if |bytes| % 4 == 0 {
          positions := Some(decode(bytes));
        } else {
          threw := true;
        }
      case PosList(values) =>
        positions := Some(values);
      case PosOther =>
      case NoPositions =>
        if f.points.Some? {
          var flat := FlattenPoints(f.points.value);
          positions := Some(flat[..]);
        }
    }
    if !threw {
      match f.colors {
        case ColBuffer(bytes) =>
          if |bytes| % 4 == 0 {
            colors := Some(decode(bytes));
          }
        case ColList(values) =>
          colors := Some(values);
        case ColNested(first, rest) =>
          var filled := FillNestedColors([Some(first)] + rest);
          colors := Some(filled[..]);
        case NoColors =>
        case ColOther =>
      }
    }
    var total := if positions.Some? then |positions.value| as real / 3.0 else DeclaredTotal(f);
    out := FileOut(OrElse(f.fileNameField, OrElse(f.fileNameAlt, "unk")), total, positions, colors);
  }

  /** The loop that collects every non-null buffer of the reply. */
  method TransferList(outs: seq<FileOut>) returns (transfer: seq<BufferRef>)
    ensures transfer == TransferOf(outs)
    ensures forall r :: r in transfer <==> Carries(outs, r)
  {
    transfer := [];
    for i := 0 to |outs|
      invariant transfer == TransferOf(outs[..i])
    {
      if outs[i].positions.Some? {
        transfer := transfer + [PositionsBuffer(i)];
      }
      if outs[i].colors.Some? {
        transfer := transfer + [ColorsBuffer(i)];
      }
      assert outs[..i + 1][..i] == outs[..i];
    }
    assert outs[..|outs|] == outs;
    TransferComplete(outs);
  }

  /** The `process-batch` case: one reply entry per input file, in order, and the
      transfer list of the reply. */
  method ProcessBatchFiles(files: seq<FileIn>, decode: FloatDecoder) returns (reply: Reply)
    ensures |reply.files| == |files|
    ensures forall i :: 0 <= i < |files| ==> reply.files[i] == Normalised(files[i], decode)
    ensures reply.transfer == TransferOf(reply.files)
  {
    var resultFiles: seq<FileOut> := [];
    for i := 0 to |files|
      invariant |resultFiles| == i
      invariant forall j :: 0 <= j < i ==> resultFiles[j] == Normalised(files[j], decode)
    {
      var out := NormaliseFile(files[i], decode);
      resultFiles := resultFiles + [out];
    }
    var transfer := TransferList(resultFiles);
    reply := BatchResult(resultFiles, transfer);
  }

  /** The message listener: nothing for a missing message or another type; a files
      field that is not an array is an empty batch. */
  method HandleMessage(msg: Option<Message>, decode: FloatDecoder) returns (reply: Option<Reply>)
    ensures msg.None? || msg.value.OtherMessage? ==> reply.None?
    ensures msg == Some(ProcessBatch(None)) ==> reply == Some(BatchResult([], []))
    ensures msg.Some? && msg.value.ProcessBatch? && msg.value.files.Some? ==>
      reply.Some? && |reply.value.files| == |msg.value.files.value| &&
      (forall i :: 0 <= i < |msg.value.files.value| ==>
        reply.value.files[i] == Normalised(msg.value.files.value[i], decode)) &&
      reply.value.transfer == TransferOf(reply.value.files)
  {
    reply := None;
    if msg.Some? && msg.value.ProcessBatch? {
      var files := if msg.value.files.Some? then msg.value.files.value else [];
      var r := ProcessBatchFiles(files, decode);
      reply := Some(r);
    }
  }
}

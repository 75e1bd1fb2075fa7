/** The offline tiler (backend/preprocess.py, `LazPreprocessor`): points are binned into
    square tiles of TILE_SIZE_METERS on x and y by floor division from the global
    minimum, then each tile is written with at most MAX_POINTS_PER_TILE points, in
    coordinates relative to the tile's origin, and described in the metadata.

    Coordinates are exact `real`s (float64 and float32 rounding are not modelled). The
    global minimum is a constructor parameter: `scan_bounds` is not part of this model.
    File contents are the written point sequences; the byte encoding is not modelled. */
module Preprocess {
  import opened Common

  const TILE_SIZE_METERS: real := 100.0
  const MAX_POINTS_PER_TILE: nat := 5_000_000

  /** A row of the `[x y z r g b]` table built from a file. */
  datatype Point = Point(x: real, y: real, z: real, r: real, g: real, b: real)

  /** A tile's integer index pair `(tx, ty)`. */
  datatype TileKey = TileKey(tx: int, ty: int)

  /** A tile origin. */
  datatype Origin = Origin(x: real, y: real, z: real)

  /** The metadata entry of a written tile. */
  datatype TileMeta = TileMeta(tx: int, ty: int, origin: Origin, points: nat)

  /** A written tile: its id, its metadata entry and the points of its `.bin` file. */
  datatype TileFile = TileFile(id: string, meta: TileMeta, points: seq<Point>)

  /** `floor_div`: the floor of `a / b`. */
  function FloorDiv(a: real, b: real): int
    requires b != 0.0
  {
    (a / b).Floor
  }

  /** The tile index of an offset brackets it: `tx*TILE_SIZE_METERS <= a < (tx+1)*TILE_SIZE_METERS`. */
  lemma TileIndexBounds(a: real)
    ensures (FloorDiv(a, TILE_SIZE_METERS) as real) * TILE_SIZE_METERS <= a
    ensures a < (FloorDiv(a, TILE_SIZE_METERS) as real + 1.0) * TILE_SIZE_METERS
  {
    var q := FloorDiv(a, TILE_SIZE_METERS) as real;
    assert q <= a / TILE_SIZE_METERS < q + 1.0;
  }

  /** The floor quotient is monotonic in the dividend. */
  lemma FloorDivMonotone(a: real, a': real, b: real)
    requires b > 0.0 && a <= a'
    ensures FloorDiv(a, b) <= FloorDiv(a', b)
  {
    assert a / b <= a' / b;
  }

  /** The tile a point is binned into. */
  function KeyOf(p: Point, minX: real, minY: real): TileKey {
    TileKey(FloorDiv(p.x - minX, TILE_SIZE_METERS), FloorDiv(p.y - minY, TILE_SIZE_METERS))
  }

  /** The origin `write_tiles` gives tile `(tx, ty)`. */
  function OriginOf(k: TileKey, minX: real, minY: real, minZ: real): Origin {
    Origin(minX + (k.tx as real) * TILE_SIZE_METERS, minY + (k.ty as real) * TILE_SIZE_METERS, minZ)
  }

  /** A point lies inside the square of the tile it is binned into: its x and y are at
      least the tile's origin and less than one tile size beyond it. */
  lemma PointInsideItsTile(p: Point, minX: real, minY: real, minZ: real)
    ensures var o := OriginOf(KeyOf(p, minX, minY), minX, minY, minZ);
      o.x <= p.x < o.x + TILE_SIZE_METERS && o.y <= p.y < o.y + TILE_SIZE_METERS
  {
    TileIndexBounds(p.x - minX);
    TileIndexBounds(p.y - minY);
  }

  /** The points stored for `k` (none when `k` has no list yet). */
  function TileOf(tiles: map<TileKey, seq<Point>>, k: TileKey): seq<Point> {
    if k in tiles then tiles[k] else []
  }

  /** The points of `points` binned into `k`, in their order. */
  function Filter(points: seq<Point>, k: TileKey, minX: real, minY: real): (r: seq<Point>)
    ensures |r| <= |points|
  {
    if |points| == 0 then []
    else Filter(points[..|points| - 1], k, minX, minY) +
         (if KeyOf(points[|points| - 1], minX, minY) == k then [points[|points| - 1]] else [])
  }

  /** Only points binned into `k` are in its filtered list. */
  lemma {:induction false} FilterSound(points: seq<Point>, k: TileKey, minX: real, minY: real, q: Point)
    requires q in Filter(points, k, minX, minY)
    ensures q in points && KeyOf(q, minX, minY) == k
  {
    var init := points[..|points| - 1];
    if q in Filter(init, k, minX, minY) {
      FilterSound(init, k, minX, minY, q);
      assert q in init;
    }
  }

  /** A point of the input lands in its own tile's list and in no other. */
  lemma {:induction false} EachPointInOneTile(points: seq<Point>, i: nat, k: TileKey, minX: real, minY: real)
    requires i < |points|
    ensures points[i] in Filter(points, KeyOf(points[i], minX, minY), minX, minY)
    ensures k != KeyOf(points[i], minX, minY) ==> points[i] !in Filter(points, k, minX, minY)
  {
    if i < |points| - 1 {
      EachPointInOneTile(points[..|points| - 1], i, k, minX, minY);
      assert points[..|points| - 1][i] == points[i];
    }
    if k != KeyOf(points[i], minX, minY) && points[i] in Filter(points, k, minX, minY) {
      FilterSound(points, k, minX, minY, points[i]);
    }
  }

  /** The sum of the list sizes of the keys in `order`. */
  function TotalIn(order: seq<TileKey>, tiles: map<TileKey, seq<Point>>): nat {
    if |order| == 0 then 0 else TotalIn(order[..|order| - 1], tiles) + |TileOf(tiles, order[|order| - 1])|
  }

  /** Changing the list of a key outside `order` leaves the total alone; changing the
      list of a key in `order` changes it by the difference in size. */
  lemma {:induction false} TotalInUpdate(order: seq<TileKey>, tiles: map<TileKey, seq<Point>>, k: TileKey, v: seq<Point>)
    requires NoDuplicates(order)
    ensures k !in order ==> TotalIn(order, tiles[k := v]) == TotalIn(order, tiles)
    ensures k in order ==> TotalIn(order, tiles[k := v]) + |TileOf(tiles, k)| == TotalIn(order, tiles) + |v|
  {
    if |order| > 0 {
      var init := order[..|order| - 1];
      assert NoDuplicates(init) by {
        forall i, j | 0 <= i < j < |init| ensures init[i] != init[j] {
          assert init[i] == order[i] && init[j] == order[j];
        }
      }
      TotalInUpdate(init, tiles, k, v);
      assert k in order ==> k in init || k == order[|order| - 1];
      if k == order[|order| - 1] {
        assert k !in init by {
          forall i | 0 <= i < |init| ensures init[i] != k {
            assert init[i] == order[i];
          }
        }
      }
    }
  }

  /** `points_np[:MAX_POINTS_PER_TILE]`. */
  function Truncated(points: seq<Point>): (r: seq<Point>)
    ensures |r| == if |points| > MAX_POINTS_PER_TILE then MAX_POINTS_PER_TILE else |points|
    ensures r == points[..|r|]
  {
    if |points| > MAX_POINTS_PER_TILE then points[..MAX_POINTS_PER_TILE] else points
  }

  /** A point in coordinates relative to `o`; its colour is untouched. */
  function Relative(p: Point, o: Origin): Point {
    p.(x := p.x - o.x, y := p.y - o.y, z := p.z - o.z)
  }

  /** A point binned into `k` has local x and y in `[0, TILE_SIZE_METERS)` relative to
      the origin of `k`. */
  lemma LocalCoordinatesInTile(p: Point, k: TileKey, minX: real, minY: real, minZ: real)
    requires KeyOf(p, minX, minY) == k
    ensures var q := Relative(p, OriginOf(k, minX, minY, minZ));
      0.0 <= q.x < TILE_SIZE_METERS && 0.0 <= q.y < TILE_SIZE_METERS && q.z == p.z - minZ
  {
    PointInsideItsTile(p, minX, minY, minZ);
  }

  /** The points `ps` relative to `o`, in order. */
  function RelativeAll(ps: seq<Point>, o: Origin): (r: seq<Point>)
    ensures |r| == |ps|
  {
    seq(|ps|, j requires 0 <= j < |ps| => Relative(ps[j], o))
  }

  /** Tile `k` as `write_tiles` writes it from its list: the id `"tx_ty"`, the metadata
      entry, and the first MAX_POINTS_PER_TILE points relative to the origin. */
  function WrittenTile(k: TileKey, points: seq<Point>, minX: real, minY: real, minZ: real): TileFile {
    var o := OriginOf(k, minX, minY, minZ);
    var kept := Truncated(points);
    TileFile(TileId(k.tx, k.ty), TileMeta(k.tx, k.ty, o, |kept|), RelativeAll(kept, o))
  }

  /** Writing one tile: the kept points are shifted by the tile's origin in place. */
  method WriteTile(k: TileKey, points: seq<Point>, minX: real, minY: real, minZ: real) returns (t: TileFile)
    ensures t == WrittenTile(k, points, minX, minY, minZ)
  {
    var kept := Truncated(points);
    var a := new Point[|kept|](i requires 0 <= i < |kept| => kept[i]);
    var o := OriginOf(k, minX, minY, minZ);
    for i := 0 to a.Length
      invariant forall j :: 0 <= j < i ==> a[j] == Relative(kept[j], o)
      invariant forall j :: i <= j < a.Length ==> a[j] == kept[j]
    {
      a[i] := Relative(a[i], o);
    }
    assert a[..] == RelativeAll(kept, o);
    t := TileFile(TileId(k.tx, k.ty), TileMeta(k.tx, k.ty, o, a.Length), a[..]);
  }

  /** The tile written for `k` is as WrittenAs describes, with at most
      MAX_POINTS_PER_TILE points. */
  lemma WrittenTileIsWrittenAs(k: TileKey, points: seq<Point>, minX: real, minY: real, minZ: real)
    ensures WrittenAs(WrittenTile(k, points, minX, minY, minZ), k, points, minX, minY, minZ)
    ensures |WrittenTile(k, points, minX, minY, minZ).points| <= MAX_POINTS_PER_TILE
  {
  }

  /** The tiles written for `keys`, in order. */
  function WrittenTiles(keys: seq<TileKey>, tiles: map<TileKey, seq<Point>>, minX: real, minY: real, minZ: real): (r: seq<TileFile>)
    requires forall k :: k in keys ==> k in tiles
    ensures |r| == |keys|
  {
    seq(|keys|, i requires 0 <= i < |keys| => WrittenTile(keys[i], tiles[keys[i]], minX, minY, minZ))
  }

  /** Writing one more key appends its tile. */
  lemma WrittenTilesSnoc(keys: seq<TileKey>, k: TileKey, tiles: map<TileKey, seq<Point>>, minX: real, minY: real, minZ: real)
    requires forall k' :: k' in keys ==> k' in tiles
    requires k in tiles
    ensures WrittenTiles(keys + [k], tiles, minX, minY, minZ) ==
            WrittenTiles(keys, tiles, minX, minY, minZ) + [WrittenTile(k, tiles[k], minX, minY, minZ)]
  {
  }

  /** The `for ... in self.tiles.items()` loop of `write_tiles`: one tile per key, in
      the order of `keys`. */
  method WriteAll(keys: seq<TileKey>, tiles: map<TileKey, seq<Point>>, minX: real, minY: real, minZ: real)
    returns (written: seq<TileFile>)
    requires forall k :: k in keys ==> k in tiles
    ensures written == WrittenTiles(keys, tiles, minX, minY, minZ)
  {
    written := [];
    for i := 0 to |keys|
      invariant written == WrittenTiles(keys[..i], tiles, minX, minY, minZ)
    {
      var t := WriteTile(keys[i], tiles[keys[i]], minX, minY, minZ);
      WrittenTilesSnoc(keys[..i], keys[i], tiles, minX, minY, minZ);
      assert keys[..i + 1] == keys[..i] + [keys[i]];
      written := written + [t];
    }
    assert keys[..|keys|] == keys;
  }

  /** The tiler's state: the global minimum, the tile lists keyed by index pair (with
      their keys in insertion order, as a Python dict keeps them) and the point total. */
  class LazPreprocessor {
    const minX: real
    const minY: real
    const minZ: real
    var tiles: map<TileKey, seq<Point>>
    var order: seq<TileKey>
    var totalPoints: nat

    /** The keys are those of `tiles`, once each; every stored point is in the tile it
        is binned into; the total counts the stored points. */
    ghost predicate Valid()
      reads this
    {
      KeyedBy(tiles, order) && Binned(tiles, minX, minY) && totalPoints == TotalIn(order, tiles)
    }

    constructor(minX: real, minY: real, minZ: real)
      ensures this.minX == minX && this.minY == minY && this.minZ == minZ
      ensures tiles == map[] && order == [] && totalPoints == 0
      ensures Valid()
    {
      this.minX, this.minY, this.minZ := minX, minY, minZ;
      tiles, order, totalPoints := map[], [], 0;
    }

    /** The body of the `for point in data` loop: the point joins the end of its tile's
        list, which is created, with its key last in the order, if missing. */
    method AddPoint(p: Point)
      modifies this
      ensures tiles == AddedTiles(old(tiles), KeyOf(p, minX, minY), p)
      ensures order == AddedOrder(old(order), KeyOf(p, minX, minY))
      ensures totalPoints == old(totalPoints)
    {
      var key := KeyOf(p, minX, minY);
      if key !in tiles {
        tiles := tiles[key := []];
      }
      if key !in order {
        order := order + [key];
      }
      tiles := tiles[key := tiles[key] + [p]];
    }

    /** One file of `process_files`: the total grows by the file's point count, then every
        point is appended to its tile's list; the invariant is kept. */
    method ProcessFile(points: seq<Point>)
      requires Valid()
      modifies this
      ensures tiles == BinAll(old(tiles), points, minX, minY)
      ensures order == OrderAll(old(order), points, minX, minY)
      ensures totalPoints == old(totalPoints) + |points|
      ensures Valid()
    {
      ghost var t0, o0 := tiles, order;
      totalPoints := totalPoints + |points|;
      for i := 0 to |points|
        invariant tiles == BinAll(t0, points[..i], minX, minY)
        invariant order == OrderAll(o0, points[..i], minX, minY)
        invariant totalPoints == old(totalPoints) + |points|
      {
        AddPoint(points[i]);
        assert points[..i + 1][..i] == points[..i];
      }
      assert points[..|points|] == points;
      BinAllKeyed(t0, o0, points, minX, minY);
      BinAllBinned(t0, points, minX, minY);
    }

    /** `process_files`: the files one after the other, which bins their concatenation
        (BinAllAppend, OrderAllAppend); the invariant is kept. */
    method ProcessFiles(files: seq<seq<Point>>)
      requires Valid()
      modifies this
      ensures tiles == BinAll(old(tiles), Flat(files), minX, minY)
      ensures order == OrderAll(old(order), Flat(files), minX, minY)
      ensures totalPoints == old(totalPoints) + SumLengths(files)
      ensures Valid()
    {
      ghost var t0, o0 := tiles, order;
      for f := 0 to |files|
        invariant tiles == BinAll(t0, Flat(files[..f]), minX, minY)
        invariant order == OrderAll(o0, Flat(files[..f]), minX, minY)
        invariant totalPoints == old(totalPoints) + SumLengths(files[..f])
        invariant Valid()
      {
        ProcessFile(files[f]);
        assert files[..f + 1][..f] == files[..f];
        BinAllAppend(t0, Flat(files[..f]), files[f], minX, minY);
        OrderAllAppend(o0, Flat(files[..f]), files[f], minX, minY);
      }
      assert files[..|files|] == files;
    }

    /** `write_tiles`: one written tile per key, in the key order; the tiler's state is
        not changed. */
    method WriteTiles() returns (written: seq<TileFile>)
      requires forall k :: k in order ==> k in tiles
      ensures written == WrittenTiles(order, tiles, minX, minY, minZ)
    {
      written := WriteAll(order, tiles, minX, minY, minZ);
    }

    /** `write_tiles` returns a dict keyed by tile id: the written tiles have pairwise
        different ids, so no metadata entry overwrites another. */
    lemma WrittenIdsDistinct()
      requires Valid()
      ensures forall k :: k in order ==> k in tiles
      ensures var w := WrittenTiles(order, tiles, minX, minY, minZ);
        forall i, j :: 0 <= i < j < |w| ==> w[i].id != w[j].id
    {
      var w := WrittenTiles(order, tiles, minX, minY, minZ);
      forall i, j | 0 <= i < j < |w|
        ensures w[i].id != w[j].id
      {
        if w[i].id == w[j].id {
          TileIdInjective(order[i].tx, order[i].ty, order[j].tx, order[j].ty);
        }
      }
    }

    /** What `write_tiles` returns: tile `order[i]` at index `i`, written as WrittenAs
        says. */
    lemma WriteTilesAsWritten(i: nat)
      requires forall k :: k in order ==> k in tiles
      requires i < |order|
      ensures |WrittenTiles(order, tiles, minX, minY, minZ)| == |order|
      ensures WrittenAs(WrittenTiles(order, tiles, minX, minY, minZ)[i], order[i], tiles[order[i]], minX, minY, minZ)
    {
      WrittenTileIsWrittenAs(order[i], tiles[order[i]], minX, minY, minZ);
    }
  }

  /** `t` is tile `k` written from the list `points`: its id and metadata entry, and the
      first MAX_POINTS_PER_TILE points relative to its origin. */
  predicate WrittenAs(t: TileFile, k: TileKey, points: seq<Point>, minX: real, minY: real, minZ: real) {
    t.id == TileId(k.tx, k.ty) &&
    t.meta == TileMeta(k.tx, k.ty, OriginOf(k, minX, minY, minZ), |Truncated(points)|) &&
    |t.points| == t.meta.points &&
    forall j :: 0 <= j < |t.points| ==> t.points[j] == Relative(points[j], t.meta.origin)
  }

  /** A tile written from a list of points binned into it holds local coordinates: x
      and y in `[0, TILE_SIZE_METERS)` and z measured from the global minimum. */
  lemma WrittenTileIsLocal(t: TileFile, k: TileKey, points: seq<Point>, minX: real, minY: real, minZ: real)
    requires WrittenAs(t, k, points, minX, minY, minZ)
    requires forall q :: q in points ==> KeyOf(q, minX, minY) == k
    ensures forall j :: 0 <= j < |t.points| ==>
      0.0 <= t.points[j].x < TILE_SIZE_METERS && 0.0 <= t.points[j].y < TILE_SIZE_METERS &&
      t.points[j].z == points[j].z - minZ
  {
    forall j | 0 <= j < |t.points|
      ensures 0.0 <= t.points[j].x < TILE_SIZE_METERS && 0.0 <= t.points[j].y < TILE_SIZE_METERS
      ensures t.points[j].z == points[j].z - minZ
    {
      assert points[j] in points;
      LocalCoordinatesInTile(points[j], k, minX, minY, minZ);
    }
  }

  /** The total over the files. */
  function SumLengths(files: seq<seq<Point>>): nat {
    if |files| == 0 then 0 else SumLengths(files[..|files| - 1]) + |files[|files| - 1]|
  }

  /** The points of the files, one file after the other. */
  function Flat(files: seq<seq<Point>>): (r: seq<Point>)
    ensures |r| == SumLengths(files)
  {
    if |files| == 0 then [] else Flat(files[..|files| - 1]) + files[|files| - 1]
  }

  /** Binning `a + b` is binning `a`, then `b`. */
  lemma {:induction false} BinAllAppend(tiles: map<TileKey, seq<Point>>, a: seq<Point>, b: seq<Point>, minX: real, minY: real)
    ensures BinAll(tiles, a + b, minX, minY) == BinAll(BinAll(tiles, a, minX, minY), b, minX, minY)
  {
    if |b| == 0 {
      assert a + b == a;
    } else {
      assert (a + b)[..|a + b| - 1] == a + b[..|b| - 1];
      BinAllAppend(tiles, a, b[..|b| - 1], minX, minY);
    }
  }

  /** The key order after binning `a + b` is that after binning `a`, then `b`. */
  lemma {:induction false} OrderAllAppend(order: seq<TileKey>, a: seq<Point>, b: seq<Point>, minX: real, minY: real)
    ensures OrderAll(order, a + b, minX, minY) == OrderAll(OrderAll(order, a, minX, minY), b, minX, minY)
  {
    if |b| == 0 {
      assert a + b == a;
    } else {
      assert (a + b)[..|a + b| - 1] == a + b[..|b| - 1];
      OrderAllAppend(order, a, b[..|b| - 1], minX, minY);
    }
  }

  /** The dict invariants: `order` lists the keys of `tiles`, each once. */
  ghost predicate KeyedBy(tiles: map<TileKey, seq<Point>>, order: seq<TileKey>) {
    NoDuplicates(order) && forall k :: k in tiles <==> k in order
  }

  /** Every stored point is in the list of the tile it is binned into. */
  ghost predicate Binned(tiles: map<TileKey, seq<Point>>, minX: real, minY: real) {
    forall k, p :: k in tiles && p in tiles[k] ==> KeyOf(p, minX, minY) == k
  }

  /** The lists after appending `p` to the list of `k`. */
  function AddedTiles(tiles: map<TileKey, seq<Point>>, k: TileKey, p: Point): map<TileKey, seq<Point>> {
    tiles[k := TileOf(tiles, k) + [p]]
  }

  /** The key order after `k` is used: a new key goes last. */
  function AddedOrder(order: seq<TileKey>, k: TileKey): seq<TileKey> {
    if k in order then order else order + [k]
  }

  /** The lists after binning `points`, one after the other, on top of `tiles`. */
  function BinAll(tiles: map<TileKey, seq<Point>>, points: seq<Point>, minX: real, minY: real): map<TileKey, seq<Point>> {
    if |points| == 0 then tiles
    else
      var p := points[|points| - 1];
      AddedTiles(BinAll(tiles, points[..|points| - 1], minX, minY), KeyOf(p, minX, minY), p)
  }

  /** The key order after binning `points` on top of `order`. */
  function OrderAll(order: seq<TileKey>, points: seq<Point>, minX: real, minY: real): seq<TileKey> {
    if |points| == 0 then order
    else
      var p := points[|points| - 1];
      AddedOrder(OrderAll(order, points[..|points| - 1], minX, minY), KeyOf(p, minX, minY))
  }

  /** Appending a point keeps the dict invariants and adds one to the total of the
      stored points; the old key order stays a prefix. */
  lemma {:induction false} AddKeeps(tiles: map<TileKey, seq<Point>>, order: seq<TileKey>, p: Point, minX: real, minY: real)
    requires KeyedBy(tiles, order)
    ensures var k := KeyOf(p, minX, minY);
      KeyedBy(AddedTiles(tiles, k, p), AddedOrder(order, k)) &&
      TotalIn(AddedOrder(order, k), AddedTiles(tiles, k, p)) == TotalIn(order, tiles) + 1 &&
      |order| <= |AddedOrder(order, k)| && AddedOrder(order, k)[..|order|] == order
  {
    var k := KeyOf(p, minX, minY);
    var o' := AddedOrder(order, k);
    TotalInUpdate(order, tiles, k, TileOf(tiles, k) + [p]);
    if k !in order {
      assert o'[..|o'| - 1] == order;
      assert NoDuplicates(o') by {
        forall i, j | 0 <= i < j < |o'| ensures o'[i] != o'[j] {
          if j == |order| {
            assert o'[i] == order[i];
          } else {
            assert o'[i] == order[i] && o'[j] == order[j];
          }
        }
      }
    }
  }

  /** Binning keeps the dict invariants, counts every binned point once in the total, and
      only appends keys to the order. */
  lemma {:induction false} BinAllKeyed(tiles: map<TileKey, seq<Point>>, order: seq<TileKey>, points: seq<Point>, minX: real, minY: real)
    requires KeyedBy(tiles, order)
    ensures var t', o' := BinAll(tiles, points, minX, minY), OrderAll(order, points, minX, minY);
      KeyedBy(t', o') && TotalIn(o', t') == TotalIn(order, tiles) + |points| &&
      |order| <= |o'| && o'[..|order|] == order
  {
    if |points| > 0 {
      var init := points[..|points| - 1];
      var p := points[|points| - 1];
      BinAllKeyed(tiles, order, init, minX, minY);
      var t, o := BinAll(tiles, init, minX, minY), OrderAll(order, init, minX, minY);
      AddKeeps(t, o, p, minX, minY);
      PrefixOfPrefix(AddedOrder(o, KeyOf(p, minX, minY)), o, |order|);
    }
  }

  /** Binning appends to each tile's list exactly the points binned into it, in order. */
  lemma {:induction false} BinAllContents(tiles: map<TileKey, seq<Point>>, points: seq<Point>, k: TileKey, minX: real, minY: real)
    ensures TileOf(BinAll(tiles, points, minX, minY), k) == TileOf(tiles, k) + Filter(points, k, minX, minY)
  {
    if |points| > 0 {
      var init := points[..|points| - 1];
      var p := points[|points| - 1];
      BinAllContents(tiles, init, k, minX, minY);
      var extra: seq<Point> := if KeyOf(p, minX, minY) == k then [p] else [];
      assert TileOf(BinAll(tiles, points, minX, minY), k) == TileOf(BinAll(tiles, init, minX, minY), k) + extra;
      AppendAssoc(TileOf(tiles, k), Filter(init, k, minX, minY), extra);
    }
  }

  /** Binning keeps every stored point in the tile it is binned into. */
  lemma BinAllBinned(tiles: map<TileKey, seq<Point>>, points: seq<Point>, minX: real, minY: real)
    requires Binned(tiles, minX, minY)
    ensures Binned(BinAll(tiles, points, minX, minY), minX, minY)
  {
    var t' := BinAll(tiles, points, minX, minY);
    forall k, q | k in t' && q in t'[k]
      ensures KeyOf(q, minX, minY) == k
    {
      BinAllContents(tiles, points, k, minX, minY);
      if q !in TileOf(tiles, k) {
        FilterSound(points, k, minX, minY, q);
      }
    }
  }

  /** A prefix of a prefix is a prefix. */
  lemma PrefixOfPrefix<T>(a: seq<T>, b: seq<T>, n: nat)
    requires |b| <= |a| && a[..|b|] == b && n <= |b|
    ensures a[..n] == b[..n]
  {
    assert forall j :: 0 <= j < n ==> a[..n][j] == a[..|b|][j];
  }
}

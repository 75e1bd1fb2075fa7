/** The tile query of the dataset API (backend/routes/dataset.py, `get_tiles_for_bbox`):
    the bounding box is turned into inclusive ranges of tile indices by floor division
    from the global minimum, and the ids `"tx_ty"` of the existing tiles in those ranges
    are listed, tx-major.

    The metadata file is a parameter; its loading, the HTTP layer and `get_tile` (a file
    read) are not part of this model. Floats are exact `real`s. */
module DatasetRoute {
  import opened Common
  import opened Preprocess

  /** The parts of the dataset metadata the query reads: `tile_size`, `bounds.min[0..1]`
      and the ids of `tiles`. */
  datatype Metadata = Metadata(tileSize: real, minX: real, minY: real, tileIds: set<string>)

  /** `tile_size` zero makes the floor division raise. */
  datatype RouteError = ZeroTileSize

  /** The inclusive index ranges a box covers. */
  datatype IndexBox = IndexBox(txMin: int, txMax: int, tyMin: int, tyMax: int)

  /** `tx_min`, `ty_min`, `tx_max`, `ty_max`. */
  function IndexBoxOf(minX: real, minY: real, maxX: real, maxY: real, meta: Metadata): IndexBox
    requires meta.tileSize != 0.0
  {
    IndexBox(FloorDiv(minX - meta.minX, meta.tileSize), FloorDiv(maxX - meta.minX, meta.tileSize),
             FloorDiv(minY - meta.minY, meta.tileSize), FloorDiv(maxY - meta.minY, meta.tileSize))
  }

  /** The keys `(tx, ty0) .. (tx, tyEnd - 1)` whose tile exists, in ascending ty. */
  function RowKeys(tx: int, ty0: int, tyEnd: int, ids: set<string>): seq<TileKey>
    decreases tyEnd - ty0
  {
    if tyEnd <= ty0 then []
    else RowKeys(tx, ty0, tyEnd - 1, ids) + (if TileId(tx, tyEnd - 1) in ids then [TileKey(tx, tyEnd - 1)] else [])
  }

  /** The keys of rows `tx0 .. txEnd - 1` whose tile exists, row after row. */
  function GridKeys(tx0: int, txEnd: int, ty0: int, tyEnd: int, ids: set<string>): seq<TileKey>
    decreases txEnd - tx0
  {
    if txEnd <= tx0 then []
    else GridKeys(tx0, txEnd - 1, ty0, tyEnd, ids) + RowKeys(txEnd - 1, ty0, tyEnd, ids)
  }

  /** The ids of a list of keys. */
  function IdsOf(keys: seq<TileKey>): (r: seq<string>)
    ensures |r| == |keys|
  {
    seq(|keys|, i requires 0 <= i < |keys| => TileId(keys[i].tx, keys[i].ty))
  }

  /** `a` comes before `b` in the enumeration: smaller tx, or the same tx and smaller ty. */
  predicate Before(a: TileKey, b: TileKey) {
    a.tx < b.tx || (a.tx == b.tx && a.ty < b.ty)
  }

  /** A row lists exactly the existing tiles of its columns, in strictly ascending ty. */
  lemma {:induction false} RowKeysExactly(tx: int, ty0: int, tyEnd: int, ids: set<string>)
    ensures forall k :: k in RowKeys(tx, ty0, tyEnd, ids) <==>
      k.tx == tx && ty0 <= k.ty < tyEnd && TileId(k.tx, k.ty) in ids
    ensures forall i, j :: 0 <= i < j < |RowKeys(tx, ty0, tyEnd, ids)| ==>
      RowKeys(tx, ty0, tyEnd, ids)[i].ty < RowKeys(tx, ty0, tyEnd, ids)[j].ty
    ensures forall i :: 0 <= i < |RowKeys(tx, ty0, tyEnd, ids)| ==> RowKeys(tx, ty0, tyEnd, ids)[i].tx == tx
    decreases tyEnd - ty0
  {
    if tyEnd > ty0 {
      RowKeysExactly(tx, ty0, tyEnd - 1, ids);
    }
  }

  /** The grid lists exactly the existing tiles of its rows and columns, each after all
      the keys before it in tx-major order. */
  lemma {:induction false} GridKeysExactly(tx0: int, txEnd: int, ty0: int, tyEnd: int, ids: set<string>)
    ensures forall k :: k in GridKeys(tx0, txEnd, ty0, tyEnd, ids) <==>
      tx0 <= k.tx < txEnd && ty0 <= k.ty < tyEnd && TileId(k.tx, k.ty) in ids
    ensures forall i, j :: 0 <= i < j < |GridKeys(tx0, txEnd, ty0, tyEnd, ids)| ==>
      Before(GridKeys(tx0, txEnd, ty0, tyEnd, ids)[i], GridKeys(tx0, txEnd, ty0, tyEnd, ids)[j])
    decreases txEnd - tx0
  {
    if txEnd > tx0 {
      GridKeysExactly(tx0, txEnd - 1, ty0, tyEnd, ids);
      RowKeysExactly(txEnd - 1, ty0, tyEnd, ids);
      var g := GridKeys(tx0, txEnd - 1, ty0, tyEnd, ids);
      var r := RowKeys(txEnd - 1, ty0, tyEnd, ids);
      var all := g + r;
      forall i, j | 0 <= i < j < |all|
        ensures Before(all[i], all[j])
      {
        if j < |g| {
          assert all[i] == g[i] && all[j] == g[j];
        } else if i >= |g| {
          assert all[i] == r[i - |g|] && all[j] == r[j - |g|];
        } else {
          assert all[i] == g[i] && g[i] in g;
          assert all[j] == r[j - |g|];
        }
      }
    }
  }

  /** Listing two runs of keys lists their ids one run after the other. */
  lemma IdsOfAppend(a: seq<TileKey>, b: seq<TileKey>)
    ensures IdsOf(a + b) == IdsOf(a) + IdsOf(b)
  {
    var l, r := IdsOf(a + b), IdsOf(a) + IdsOf(b);
    forall i | 0 <= i < |a| + |b|
      ensures l[i] == r[i]
    {
      if i < |a| {
        assert (a + b)[i] == a[i];
      } else {
        assert (a + b)[i] == b[i - |a|];
      }
    }
    assert l == r;
  }

  /** An id is listed exactly when its key is. */
  lemma IdsOfContains(keys: seq<TileKey>, tx: int, ty: int)
    ensures TileId(tx, ty) in IdsOf(keys) <==> TileKey(tx, ty) in keys
  {
    var r := IdsOf(keys);
    if TileId(tx, ty) in r {
      var i :| 0 <= i < |r| && r[i] == TileId(tx, ty);
      TileIdInjective(tx, ty, keys[i].tx, keys[i].ty);
      assert keys[i] == TileKey(tx, ty);
    }
    if TileKey(tx, ty) in keys {
      var i :| 0 <= i < |keys| && keys[i] == TileKey(tx, ty);
      assert r[i] == TileId(tx, ty);
    }
  }

  /** The ids of keys in strictly ascending order are distinct. */
  lemma IdsOfSorted(keys: seq<TileKey>)
    requires forall i, j :: 0 <= i < j < |keys| ==> Before(keys[i], keys[j])
    ensures NoDuplicates(IdsOf(keys))
  {
    var ids := IdsOf(keys);
    forall i, j | 0 <= i < j < |ids|
      ensures ids[i] != ids[j]
    {
      if ids[i] == ids[j] {
        TileIdInjective(keys[i].tx, keys[i].ty, keys[j].tx, keys[j].ty);
      }
    }
  }

  /** A grid with no columns lists nothing. */
  lemma {:induction false} GridKeysNoColumns(tx0: int, txEnd: int, ty0: int, tyEnd: int, ids: set<string>)
    requires tyEnd <= ty0
    ensures GridKeys(tx0, txEnd, ty0, tyEnd, ids) == []
    decreases txEnd - tx0
  {
    if txEnd > tx0 {
      GridKeysNoColumns(tx0, txEnd - 1, ty0, tyEnd, ids);
    }
  }

  /** The spec of the handler: the listed ids, or the error. */
  function TilesForBbox(minX: real, minY: real, maxX: real, maxY: real, meta: Metadata): Result<seq<string>, RouteError> {
    if meta.tileSize == 0.0 then Err(ZeroTileSize)
    else
      var b := IndexBoxOf(minX, minY, maxX, maxY, meta);
      Ok(IdsOf(GridKeys(b.txMin, b.txMax + 1, b.tyMin, b.tyMax + 1, meta.tileIds)))
  }

  /** `r`, listing `keys`, holds every existing tile whose indices lie in the inclusive
      ranges of `b` and nothing else, each once, in tx-major order; an inverted box
      lists nothing. */
  ghost predicate ListsExactly(r: seq<string>, keys: seq<TileKey>, b: IndexBox, ids: set<string>) {
    |r| == |keys| &&
    NoDuplicates(r) &&
    (forall tx, ty :: TileId(tx, ty) in r <==>
       b.txMin <= tx <= b.txMax && b.tyMin <= ty <= b.tyMax && TileId(tx, ty) in ids) &&
    (forall i :: 0 <= i < |r| ==> r[i] in ids && r[i] == TileId(keys[i].tx, keys[i].ty)) &&
    (forall i, j :: 0 <= i < j < |keys| ==> Before(keys[i], keys[j])) &&
    (b.txMax < b.txMin || b.tyMax < b.tyMin ==> r == [])
  }

  /** The enumeration of a box lists exactly its existing tiles, in order. */
  lemma GridListsExactly(b: IndexBox, ids: set<string>)
    ensures var keys := GridKeys(b.txMin, b.txMax + 1, b.tyMin, b.tyMax + 1, ids);
      ListsExactly(IdsOf(keys), keys, b, ids)
  {
    var keys := GridKeys(b.txMin, b.txMax + 1, b.tyMin, b.tyMax + 1, ids);
    var r := IdsOf(keys);
    GridKeysExactly(b.txMin, b.txMax + 1, b.tyMin, b.tyMax + 1, ids);
    IdsOfSorted(keys);
    forall tx, ty
      ensures TileId(tx, ty) in r <==>
        b.txMin <= tx <= b.txMax && b.tyMin <= ty <= b.tyMax && TileId(tx, ty) in ids
    {
      IdsOfContains(keys, tx, ty);
    }
    forall i | 0 <= i < |r| ensures r[i] in ids {
      assert keys[i] in keys;
    }
    if b.tyMax < b.tyMin {
      GridKeysNoColumns(b.txMin, b.txMax + 1, b.tyMin, b.tyMax + 1, ids);
    }
  }

  /** What the handler returns: an error exactly when `tile_size` is zero, and otherwise
      exactly the existing tiles of the index box of the query, in tx-major order. */
  lemma TilesForBboxExactly(minX: real, minY: real, maxX: real, maxY: real, meta: Metadata)
    ensures TilesForBbox(minX, minY, maxX, maxY, meta).Err? <==> meta.tileSize == 0.0
    ensures meta.tileSize != 0.0 ==>
      var b := IndexBoxOf(minX, minY, maxX, maxY, meta);
      ListsExactly(TilesForBbox(minX, minY, maxX, maxY, meta).value,
                   GridKeys(b.txMin, b.txMax + 1, b.tyMin, b.tyMax + 1, meta.tileIds), b, meta.tileIds)
  {
    if meta.tileSize != 0.0 {
      GridListsExactly(IndexBoxOf(minX, minY, maxX, maxY, meta), meta.tileIds);
    }
  }

  /** A point of the box whose tile exists is served: with the tiler's tile size, the
      tile the tiler put the point in is among the listed ids. */
  lemma PointTileIsListed(p: Point, minX: real, minY: real, maxX: real, maxY: real, meta: Metadata)
    requires meta.tileSize == TILE_SIZE_METERS
    requires minX <= p.x <= maxX && minY <= p.y <= maxY
    requires var k := KeyOf(p, meta.minX, meta.minY); TileId(k.tx, k.ty) in meta.tileIds
    ensures var k := KeyOf(p, meta.minX, meta.minY);
      TileId(k.tx, k.ty) in TilesForBbox(minX, minY, maxX, maxY, meta).value
  {
    FloorDivMonotone(minX - meta.minX, p.x - meta.minX, meta.tileSize);
    FloorDivMonotone(p.x - meta.minX, maxX - meta.minX, meta.tileSize);
    FloorDivMonotone(minY - meta.minY, p.y - meta.minY, meta.tileSize);
    FloorDivMonotone(p.y - meta.minY, maxY - meta.minY, meta.tileSize);
    TilesForBboxExactly(minX, minY, maxX, maxY, meta);
  }

  /** `get_tiles_for_bbox`: the index box of the query, then the tiles it holds. */
  method GetTilesForBbox(minX: real, minY: real, maxX: real, maxY: real, meta: Metadata)
    returns (r: Result<seq<string>, RouteError>)
    ensures r == TilesForBbox(minX, minY, maxX, maxY, meta)
  {
    if meta.tileSize == 0.0 {
      return Err(ZeroTileSize);
    }
    var box := IndexBoxOf(minX, minY, maxX, maxY, meta);
    var visible := ScanGrid(box, meta.tileIds);
    r := Ok(visible);
  }

  /** The outer loop of `get_tiles_for_bbox`: the rows `tx_min ..= tx_max`. */
  method ScanGrid(box: IndexBox, ids: set<string>) returns (visible: seq<string>)
    ensures visible == IdsOf(GridKeys(box.txMin, box.txMax + 1, box.tyMin, box.tyMax + 1, ids))
  {
    var txMin, txEnd, tyMin, tyEnd := box.txMin, box.txMax + 1, box.tyMin, box.tyMax + 1;
    visible := [];
    var tx := txMin;
    while tx < txEnd
      invariant txMin <= tx && (txMin <= txEnd ==> tx <= txEnd)
      invariant txEnd < txMin ==> tx == txMin
      invariant visible == IdsOf(GridKeys(txMin, tx, tyMin, tyEnd, ids))
      decreases txEnd - tx
    {
      visible := ScanRow(tx, tyMin, tyEnd, ids, visible);
      GridRowStep(txMin, tx, tyMin, tyEnd, ids);
      tx := tx + 1;
    }
    if txEnd < txMin {
      assert GridKeys(txMin, txEnd, tyMin, tyEnd, ids) == GridKeys(txMin, tx, tyMin, tyEnd, ids);
    } else {
      assert tx == txEnd;
    }
  }

  /** One more column lists that tile's id when it exists. */
  lemma RowStep(tx: int, ty0: int, ty: int, ids: set<string>)
    requires ty0 <= ty
    ensures IdsOf(RowKeys(tx, ty0, ty + 1, ids)) ==
      IdsOf(RowKeys(tx, ty0, ty, ids)) + (if TileId(tx, ty) in ids then [TileId(tx, ty)] else [])
  {
    var row := RowKeys(tx, ty0, ty, ids);
    if TileId(tx, ty) in ids {
      assert [TileKey(tx, ty)][..0] == [];
      IdsOfAppend(row, [TileKey(tx, ty)]);
    } else {
      assert RowKeys(tx, ty0, ty + 1, ids) == row;
      assert IdsOf(row) + [] == IdsOf(row);
    }
  }

  /** One more row lists that row's ids after the earlier rows' ones. */
  lemma GridRowStep(tx0: int, tx: int, ty0: int, tyEnd: int, ids: set<string>)
    requires tx0 <= tx
    ensures IdsOf(GridKeys(tx0, tx + 1, ty0, tyEnd, ids)) ==
      IdsOf(GridKeys(tx0, tx, ty0, tyEnd, ids)) + IdsOf(RowKeys(tx, ty0, tyEnd, ids))
  {
    IdsOfAppend(GridKeys(tx0, tx, ty0, tyEnd, ids), RowKeys(tx, ty0, tyEnd, ids));
  }

  /** The inner loop of `get_tiles_for_bbox`: one row of tiles appended to `visible`. */
  method ScanRow(tx: int, tyMin: int, tyEnd: int, ids: set<string>, visible: seq<string>) returns (v: seq<string>)
    ensures v == visible + IdsOf(RowKeys(tx, tyMin, tyEnd, ids))
  {
    v := visible;
    var ty := tyMin;
    while ty < tyEnd
      invariant tyMin <= ty && (ty <= tyEnd || ty == tyMin)
      invariant v == visible + IdsOf(RowKeys(tx, tyMin, ty, ids))
      decreases tyEnd - ty
    {
      RowStep(tx, tyMin, ty, ids);
      if TileId(tx, ty) in ids {
        AppendAssoc(visible, IdsOf(RowKeys(tx, tyMin, ty, ids)), [TileId(tx, ty)]);
        v := v + [TileId(tx, ty)];
      }
      ty := ty + 1;
    }
  }
}

/** The spatial index over a preprocessed dataset (backend/spatial_index.py): the tile
    table read from the dataset metadata, the path of a tile's binary file, a tile's
    metadata, and the tiles whose origin lies in a box.

    Paths are strings joined with `/`. Reading `metadata.json` is not modelled: the
    parsed `tiles` object is a constructor parameter, a Python dict given as its keys in
    insertion order together with the map from key to entry. */
module SpatialIndex {
  import opened Common
  import opened Preprocess

  /** The origin `(ox, oy, _)` of a tile lies in the closed box. */
  predicate OriginInBox(o: Origin, minX: real, minY: real, maxX: real, maxY: real) {
    minX <= o.x <= maxX && minY <= o.y <= maxY
  }

  /** The keys of `ids` whose tile has its origin in the box, in the order of `ids`. */
  function Matching(ids: seq<string>, tiles: map<string, TileMeta>, minX: real, minY: real, maxX: real, maxY: real): (r: seq<string>)
    requires forall id :: id in ids ==> id in tiles
    ensures |r| <= |ids|
    ensures forall id :: id in r ==> id in ids && OriginInBox(tiles[id].origin, minX, minY, maxX, maxY)
  {
    if |ids| == 0 then []
    else
      var last := ids[|ids| - 1];
      Matching(ids[..|ids| - 1], tiles, minX, minY, maxX, maxY) +
        (if OriginInBox(tiles[last].origin, minX, minY, maxX, maxY) then [last] else [])
  }

  /** `r` is `s` with some elements dropped and the rest kept in order. */
  ghost predicate IsSubsequence<T>(r: seq<T>, s: seq<T>)
    decreases |s|
  {
    if |r| == 0 then true
    else if |s| == 0 then false
    else if r[|r| - 1] == s[|s| - 1] then IsSubsequence(r[..|r| - 1], s[..|s| - 1])
    else IsSubsequence(r, s[..|s| - 1])
  }

  /** The matching keys are exactly the tiles with their origin in the box, taken from
      `ids` in order. */
  lemma {:induction false} MatchingExactly(ids: seq<string>, tiles: map<string, TileMeta>, minX: real, minY: real, maxX: real, maxY: real)
    requires forall id :: id in ids ==> id in tiles
    ensures forall id :: id in Matching(ids, tiles, minX, minY, maxX, maxY) <==>
      id in ids && OriginInBox(tiles[id].origin, minX, minY, maxX, maxY)
    ensures IsSubsequence(Matching(ids, tiles, minX, minY, maxX, maxY), ids)
  {
    if |ids| > 0 {
      var init := ids[..|ids| - 1];
      var last := ids[|ids| - 1];
      assert ids == init + [last];
      MatchingExactly(init, tiles, minX, minY, maxX, maxY);
      var m := Matching(init, tiles, minX, minY, maxX, maxY);
      if OriginInBox(tiles[last].origin, minX, minY, maxX, maxY) {
        assert (m + [last])[..|m|] == m;
      } else {
        assert m + [] == m;
        SubsequenceOfLonger(m, init, last);
      }
    }
  }

  /** Appending to the longer sequence keeps a subsequence one. */
  lemma {:induction false} SubsequenceOfLonger<T>(r: seq<T>, s: seq<T>, x: T)
    requires IsSubsequence(r, s)
    ensures IsSubsequence(r, s + [x])
    decreases |s|, 2
  {
    var s' := s + [x];
    assert s'[..|s'| - 1] == s;
    if |r| > 0 && r[|r| - 1] == x {
      SubsequenceDropLast(r, s);
    }
  }

  /** Dropping the last element keeps a subsequence one. */
  lemma {:induction false} SubsequenceDropLast<T>(r: seq<T>, s: seq<T>)
    requires |r| > 0 && IsSubsequence(r, s)
    ensures IsSubsequence(r[..|r| - 1], s)
    decreases |s|, 1
  {
    var r' := r[..|r| - 1];
    var s' := s[..|s| - 1];
    assert s' + [s[|s| - 1]] == s;
    if r[|r| - 1] == s[|s| - 1] {
      SubsequenceOfLonger(r', s', s[|s| - 1]);
    } else {
      SubsequenceDropLast(r, s');
      SubsequenceOfLonger(r', s', s[|s| - 1]);
    }
  }

  /** A subsequence of a list without duplicates has none. */
  lemma {:induction false} SubsequenceNoDuplicates<T>(r: seq<T>, s: seq<T>)
    requires IsSubsequence(r, s) && NoDuplicates(s)
    ensures NoDuplicates(r)
    ensures forall x :: x in r ==> x in s
    decreases |s|
  {
    if |r| > 0 {
      var s' := s[..|s| - 1];
      assert NoDuplicates(s');
      if r[|r| - 1] == s[|s| - 1] {
        var r' := r[..|r| - 1];
        SubsequenceNoDuplicates(r', s');
        assert r == r' + [s[|s| - 1]];
        forall i | 0 <= i < |r'| ensures r'[i] != s[|s| - 1] {
          assert r'[i] in s';
          var k :| 0 <= k < |s'| && s'[k] == r'[i];
        }
      } else {
        SubsequenceNoDuplicates(r, s');
      }
    }
  }

  class SpatialIndex {
    const root: string
    const tilesDir: string
    /** The keys of the `tiles` object, in insertion order. */
    const ids: seq<string>
    /** The `tiles` object: tile id to its entry. */
    const tiles: map<string, TileMeta>

    /** The table is a dict: each key once, and the keys are those of the map. */
    predicate Valid() {
      NoDuplicates(ids) && (set id | id in ids) == tiles.Keys
    }

    /** `__init__`, with the parsed `metadata["tiles"]` given. */
    constructor (root: string, ids: seq<string>, tiles: map<string, TileMeta>)
      requires NoDuplicates(ids) && (set id | id in ids) == tiles.Keys
      ensures this.root == root && tilesDir == root + "/tiles"
      ensures this.ids == ids && this.tiles == tiles
      ensures Valid()
    {
      this.root := root;
      this.tilesDir := root + "/tiles";
      this.ids := ids;
      this.tiles := tiles;
    }

    /** `tile_path`: `<tiles_dir>/<tile_id>.bin`, as a string join. For an id without
        `/` this is the path pathlib builds; pathlib's normalisation of other ids is not
        modelled. */
    function TilePath(id: string): (p: string)
      ensures |p| == |tilesDir| + |id| + 5
      ensures p[..|tilesDir| + 1] == tilesDir + "/" && p[|p| - 4..] == ".bin"
      ensures p[|tilesDir| + 1..|p| - 4] == id
    {
      tilesDir + "/" + id + ".bin"
    }

    /** Different tiles (ids without a path separator) have different files, all in
        the tiles directory with the `.bin` extension. */
    lemma TilePathInjective(a: string, b: string)
      requires '/' !in a && '/' !in b
      ensures TilePath(a) == TilePath(b) <==> a == b
      ensures |TilePath(a)| == |tilesDir| + |a| + 5
      ensures TilePath(a)[..|tilesDir| + 1] == tilesDir + "/"
      ensures TilePath(a)[|TilePath(a)| - 4..] == ".bin"
    {
      var prefix := tilesDir + "/";
      assert TilePath(a) == prefix + a + ".bin";
      assert TilePath(b) == prefix + b + ".bin";
      assert TilePath(a)[|prefix|..|prefix| + |a|] == a;
      assert TilePath(b)[|prefix|..|prefix| + |b|] == b;
    }

    /** The tiles the tiler writes, `"tx_ty"`, have pairwise different files. */
    lemma TilePathsOfTileIds(tx: int, ty: int, tx': int, ty': int)
      requires TilePath(TileId(tx, ty)) == TilePath(TileId(tx', ty'))
      ensures tx == tx' && ty == ty'
    {
      TilePathInjective(TileId(tx, ty), TileId(tx', ty'));
      TileIdInjective(tx, ty, tx', ty');
    }

    /** `tile_meta`: the entry of a tile, or `None` for an unknown id. */
    function TileMetaOf(id: string): (r: Option<TileMeta>)
      ensures r.Some? <==> id in tiles
      ensures r.Some? ==> r.value == tiles[id]
    {
      if id in tiles then Some(tiles[id]) else None
    }

    /** `query`: the ids of the tiles whose origin lies in the closed box, in table
        order. */
    method Query(minX: real, minY: real, maxX: real, maxY: real) returns (result: seq<string>)
      requires Valid()
      ensures result == Matching(ids, tiles, minX, minY, maxX, maxY)
    {
      forall id | id in ids ensures id in tiles {
        assert id in (set id | id in ids);
      }
      result := [];
      var i := 0;
      while i < |ids|
        invariant 0 <= i <= |ids|
        invariant result == Matching(ids[..i], tiles, minX, minY, maxX, maxY)
      {
        var tid := ids[i];
        var t := tiles[tid];
        assert ids[..i + 1][..i] == ids[..i];
        if OriginInBox(t.origin, minX, minY, maxX, maxY) {
          result := result + [tid];
        }
        i := i + 1;
      }
      assert ids[..i] == ids;
    }

    /** What `query` returns: each tile of the box once, every one of them, in table
        order, and each with an entry `tile_meta` finds. */
    lemma QueryExactly(minX: real, minY: real, maxX: real, maxY: real)
      requires Valid()
      ensures var r := Matching(ids, tiles, minX, minY, maxX, maxY);
        NoDuplicates(r) && IsSubsequence(r, ids) &&
        (forall id :: id in r <==> id in tiles && OriginInBox(tiles[id].origin, minX, minY, maxX, maxY)) &&
        (forall id :: id in r ==> TileMetaOf(id).Some?)
    {
      forall id | id in ids ensures id in tiles {
        assert id in (set id | id in ids);
      }
      MatchingExactly(ids, tiles, minX, minY, maxX, maxY);
      SubsequenceNoDuplicates(Matching(ids, tiles, minX, minY, maxX, maxY), ids);
      forall id | id in tiles ensures id in ids {
        assert id in (set id | id in ids);
      }
    }
  }
}

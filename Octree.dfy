/** The lidar-viewer point store (octree.ts): a single root node whose position and
    colour buffers grow by concatenation, under a budget of points the GPU may hold.
    Float32 elements are `real`s; Float32 rounding is not modelled. */
module OctreeModel {
  import opened Common

  const MAX_POINTS_GPU: int := 5_000_000
  /** Half the side of the root's bounding box. */
  const ROOT_EXTENT: real := 1_000_000_000.0

  /** An axis-aligned box, `THREE.Box3`. */
  datatype Box = Box(minX: real, minY: real, minZ: real, maxX: real, maxY: real, maxZ: real)

  /** The number of points a positions buffer holds: its length over three, which is
      fractional when the length is not a multiple of three. */
  function PointCount(len: nat): (c: real)
    ensures c >= 0.0 && 3.0 * c == len as real
  {
    len as real / 3.0
  }

  /** The budget test of insertChunk: the chunk is accepted when the points already held
      plus its own stay within MAX_POINTS_GPU. */
  predicate Admits(total: real, len: nat) {
    total + PointCount(len) <= MAX_POINTS_GPU as real
  }

  /** The point total after offering chunks of the given lengths in order to a fresh
      octree. */
  function TotalAfter(lens: seq<nat>): real
    decreases |lens|
  {
    if |lens| == 0 then 0.0
    else
      var t := TotalAfter(lens[..|lens| - 1]);
      if Admits(t, lens[|lens| - 1]) then t + PointCount(lens[|lens| - 1]) else t
  }

  /** The lengths of the chunks among `lens` that were accepted, in order. */
  function AcceptedLengths(lens: seq<nat>): seq<nat>
    decreases |lens|
  {
    if |lens| == 0 then []
    else
      var prefix := lens[..|lens| - 1];
      AcceptedLengths(prefix) + (if Admits(TotalAfter(prefix), lens[|lens| - 1]) then [lens[|lens| - 1]] else [])
  }

  function Sum(s: seq<nat>): nat
    decreases |s|
  {
    if |s| == 0 then 0 else Sum(s[..|s| - 1]) + s[|s| - 1]
  }

  /** Whatever chunks are offered, the total never exceeds the GPU budget, and it is
      exactly one third of the accepted positions; so it is a whole number when every
      accepted chunk holds whole points. */
  lemma {:induction false} TotalWithinBudget(lens: seq<nat>)
    ensures 0.0 <= TotalAfter(lens) <= MAX_POINTS_GPU as real
    ensures 3.0 * TotalAfter(lens) == Sum(AcceptedLengths(lens)) as real
    decreases |lens|
  {
    if |lens| > 0 {
      var prefix := lens[..|lens| - 1];
      var last := lens[|lens| - 1];
      TotalWithinBudget(prefix);
      var extra := if Admits(TotalAfter(prefix), last) then [last] else [];
      SumAppend(AcceptedLengths(prefix), extra);
    }
  }

  lemma SumAppend(a: seq<nat>, b: seq<nat>)
    requires |b| <= 1
    ensures Sum(a + b) == Sum(a) + Sum(b)
  {
    if |b| == 1 {
      assert (a + b)[..|a + b| - 1] == a;
    } else {
      assert a + b == a;
    }
  }

  /** A chunk that does not fit is rejected whatever its contents, and a chunk that
      fits into an empty octree is accepted: in particular the first chunk is accepted
      exactly when it holds at most MAX_POINTS_GPU points. */
  lemma FirstChunk(len: nat)
    ensures Admits(0.0, len) <==> len <= 3 * MAX_POINTS_GPU
    ensures TotalAfter([len]) == if len <= 3 * MAX_POINTS_GPU then PointCount(len) else 0.0
  {
    assert [len][..0] == [];
  }

  class OctreeNode {
    const box: Box
    var points: seq<real>
    var colors: seq<real>
    /** Always null: the octree is never subdivided. */
    var children: Option<seq<OctreeNode>>

    constructor (box: Box, points: seq<real>, colors: seq<real>)
      ensures this.box == box && this.points == points && this.colors == colors
      ensures children == None
    {
      this.box := box;
      this.points := points;
      this.colors := colors;
      children := None;
    }
  }

  /** `concat`: a new buffer of the combined length, `a` copied to its start and `b`
      right after it. */
  method Concat(a: seq<real>, b: seq<real>) returns (r: seq<real>)
    ensures |r| == |a| + |b|
    ensures r[..|a|] == a && r[|a|..] == b
  {
    var out := new real[|a| + |b|];
    forall i | 0 <= i < |a| {
      out[i] := a[i];
    }
    forall i | 0 <= i < |b| {
      out[|a| + i] := b[i];
    }
    r := out[..];
  }

  class Octree {
    var root: OctreeNode
    var totalPoints: real

    /** The root holds three coordinates per counted point, the count is within the
        budget, and the root is never split. */
    ghost predicate Valid()
      reads this, root
    {
      && 0.0 <= totalPoints <= MAX_POINTS_GPU as real
      && |root.points| as real == 3.0 * totalPoints
      && root.children == None
    }

    /** An empty root spanning ±1e9 on every axis. */
    constructor ()
      ensures fresh(root) && Valid()
      ensures totalPoints == 0.0 && root.points == [] && root.colors == []
      ensures root.box == Box(-ROOT_EXTENT, -ROOT_EXTENT, -ROOT_EXTENT, ROOT_EXTENT, ROOT_EXTENT, ROOT_EXTENT)
    {
      root := new OctreeNode(Box(-ROOT_EXTENT, -ROOT_EXTENT, -ROOT_EXTENT, ROOT_EXTENT, ROOT_EXTENT, ROOT_EXTENT), [], []);
      totalPoints := 0.0;
    }

    /** All or nothing: a chunk that would take the total past the budget changes
        nothing; otherwise its positions and colours are appended to the root's and its
        points are counted. */
    method InsertChunk(points: seq<real>, colors: seq<real>) returns (accepted: bool)
      requires Valid()
      modifies this, root
      ensures Valid() && root == old(root)
      ensures accepted <==> Admits(old(totalPoints), |points|)
      ensures accepted ==>
        && root.points == old(root.points) + points
        && root.colors == old(root.colors) + colors
        && totalPoints == old(totalPoints) + PointCount(|points|)
      ensures !accepted ==>
        root.points == old(root.points) && root.colors == old(root.colors) && totalPoints == old(totalPoints)
    {
      var count := PointCount(|points|);
      if totalPoints + count > MAX_POINTS_GPU as real {
        return false;
      }
      var ps := Concat(root.points, points);
      assert ps == root.points + points;
      root.points := ps;
      var cs := Concat(root.colors, colors);
      assert cs == root.colors + colors;
      root.colors := cs;
      totalPoints := totalPoints + count;
      accepted := true;
    }

    /** Pushes the node's buffers onto the render lists when it holds any positions.
        The camera plays no part. */
    method CollectLOD(node: OctreeNode, outPoints: seq<seq<real>>, outColors: seq<seq<real>>)
      returns (ps: seq<seq<real>>, cs: seq<seq<real>>)
      ensures |node.points| > 0 ==> ps == outPoints + [node.points] && cs == outColors + [node.colors]
      ensures |node.points| == 0 ==> ps == outPoints && cs == outColors
    {
      ps, cs := outPoints, outColors;
      if |node.points| > 0 {
        ps := ps + [node.points];
        cs := cs + [node.colors];
      }
    }
  }

  /** One InsertChunk step agrees with the fold that defines TotalAfter, so a run of
      insertions on a fresh octree ends with totalPoints == TotalAfter(lengths). */
  lemma TotalAfterStep(lens: seq<nat>, len: nat)
    ensures TotalAfter(lens + [len]) ==
      if Admits(TotalAfter(lens), len) then TotalAfter(lens) + PointCount(len) else TotalAfter(lens)
  {
    assert (lens + [len])[..|lens|] == lens;
  }
}

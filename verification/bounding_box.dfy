/** Separating-axis overlap test for two eight-corner boxes: `BoundingEdge`,
    `BoundingFace`, `BoundingBox` and its `whichSide` and `intersect` operations.

    The boxes are immutable once built, so they are values here; `whichSide` and
    `intersect` are scans with early exits and are methods with loops, each proved
    against a declarative definition (`SideOf`, `Overlaps`) that does not depend on
    the order of the scan. */
module Boxes {
  import opened Vectors

  /** An index into the eight corners of a box. */
  type Corner = c: nat | c < 8

  /** An edge: its two endpoints and the vector from the first to the second. */
  datatype BoundingEdge = BoundingEdge(vertex: (Vec3, Vec3), vector: Vec3)

  /** A face, given by three of its corners, and its normal. */
  datatype BoundingFace = BoundingFace(vertex: (Vec3, Vec3, Vec3), normal: Vec3)

  /** A box: its corner list with the twelve edges and six faces wired from it,
      or `NoVertex` for a box whose corner list is absent. */
  datatype BoundingBox =
    | NoVertex
    | BoundingBox(vertex: seq<Vec3>, edge: seq<BoundingEdge>, face: seq<BoundingFace>)

  /** The fixed edge wiring: the bottom loop 0-1-2-3, the top loop 4-5-6-7 and the
      four uprights i to i + 4. */
  const EdgeCorners: seq<(Corner, Corner)> :=
    [(0, 1), (1, 2), (2, 3), (3, 0),
     (4, 5), (5, 6), (6, 7), (7, 4),
     (0, 4), (1, 5), (2, 6), (3, 7)]

  /** The fixed face wiring: three faces anchored at corner 0, three at corner 6. */
  const FaceCorners: seq<(Corner, Corner, Corner)> :=
    [(0, 1, 3), (0, 4, 1), (0, 3, 4),
     (6, 5, 7), (6, 7, 2), (6, 2, 5)]

  /** The (unnormalised) normal of the triangle v0, v1, v2 by the right-hand rule. */
  function TriangleNormal(v0: Vec3, v1: Vec3, v2: Vec3): Vec3 {
    Cross(Sub(v1, v0), Sub(v2, v0))
  }

  function NewEdge(v0: Vec3, v1: Vec3): BoundingEdge {
    BoundingEdge((v0, v1), Sub(v1, v0))
  }

  function NewFace(v0: Vec3, v1: Vec3, v2: Vec3): BoundingFace {
    BoundingFace((v0, v1, v2), TriangleNormal(v0, v1, v2))
  }

  /** A box whose edges and faces are those the wiring tables give for its corners. */
  predicate Wired(bb: BoundingBox) {
    bb.BoundingBox? && |bb.vertex| >= 8 && |bb.edge| == 12 && |bb.face| == 6 &&
    (forall i :: 0 <= i < 12 ==>
      bb.edge[i] == NewEdge(bb.vertex[EdgeCorners[i].0], bb.vertex[EdgeCorners[i].1])) &&
    (forall i :: 0 <= i < 6 ==>
      bb.face[i] == NewFace(bb.vertex[FaceCorners[i].0], bb.vertex[FaceCorners[i].1],
                            bb.vertex[FaceCorners[i].2]))
  }

  /** Builds a box from its corner list. Only corners 0 to 7 are wired; any further
      corners are kept in `vertex` and take part in every side classification. */
  function NewBoundingBox(vertex: seq<Vec3>): (bb: BoundingBox)
    requires |vertex| >= 8
    ensures Wired(bb) && bb.vertex == vertex
    ensures |bb.edge| == 12 && |bb.face| == 6
    ensures forall e :: e in bb.edge ==> e.vector == Sub(e.vertex.1, e.vertex.0)
    ensures forall e :: e in bb.edge ==> e.vertex.0 in vertex[..8] && e.vertex.1 in vertex[..8]
    ensures forall f :: f in bb.face ==> f.normal == TriangleNormal(f.vertex.0, f.vertex.1, f.vertex.2)
    ensures forall i :: 0 <= i < 3 ==> bb.face[i].vertex.0 == vertex[0]
    ensures forall i :: 3 <= i < 6 ==> bb.face[i].vertex.0 == vertex[6]
  {
    BoundingBox(vertex,
      seq(12, i requires 0 <= i < 12 => NewEdge(vertex[EdgeCorners[i].0], vertex[EdgeCorners[i].1])),
      seq(6, i requires 0 <= i < 6 =>
        NewFace(vertex[FaceCorners[i].0], vertex[FaceCorners[i].1], vertex[FaceCorners[i].2])))
  }

  /** A wired box is the one its corner list builds: the wiring is determined by the corners. */
  lemma WiredIsBuilt(bb: BoundingBox)
    requires Wired(bb)
    ensures bb == NewBoundingBox(bb.vertex)
  {
    var built := NewBoundingBox(bb.vertex);
    assert bb.edge == built.edge;
    assert bb.face == built.face;
  }

  // ---------------------------------------------------------------------------
  // Side classification

  /** The signed (scaled) distance of `v` from the plane through `faceVtx` with
      normal `normal`. */
  function Projection(normal: Vec3, v: Vec3, faceVtx: Vec3): real {
    Dot(normal, Sub(v, faceVtx))
  }

  predicate SomePositive(vtxs: seq<Vec3>, normal: Vec3, faceVtx: Vec3) {
    exists i :: 0 <= i < |vtxs| && Projection(normal, vtxs[i], faceVtx) > 0.0
  }

  predicate SomeNegative(vtxs: seq<Vec3>, normal: Vec3, faceVtx: Vec3) {
    exists i :: 0 <= i < |vtxs| && Projection(normal, vtxs[i], faceVtx) < 0.0
  }

  /** Which side of the plane the points lie on: 0 when they lie strictly on both
      sides, 1 when some lie strictly on the positive side and none strictly on the
      negative side, and -1 otherwise (which includes no points, and all points on
      the plane). */
  function SideOf(vtxs: seq<Vec3>, normal: Vec3, faceVtx: Vec3): int {
    if SomePositive(vtxs, normal, faceVtx) && SomeNegative(vtxs, normal, faceVtx) then 0
    else if SomePositive(vtxs, normal, faceVtx) then 1
    else -1
  }

  /** `whichSide`: scans the points, counting strictly positive and strictly
      negative projections, and returns 0 as soon as both counts are nonzero.
      `examined` is the number of points the scan looked at. */
  method WhichSide(vtxs: seq<Vec3>, normal: Vec3, faceVtx: Vec3) returns (r: int, ghost examined: nat)
    ensures r == SideOf(vtxs, normal, faceVtx) && -1 <= r <= 1
    ensures r == 0 <==> SomePositive(vtxs, normal, faceVtx) && SomeNegative(vtxs, normal, faceVtx)
    ensures r == 1 <==> SomePositive(vtxs, normal, faceVtx) && !SomeNegative(vtxs, normal, faceVtx)
    ensures r == -1 <==> !SomePositive(vtxs, normal, faceVtx)
    ensures examined <= |vtxs|
    ensures r != 0 ==> examined == |vtxs|
    ensures r == 0 ==> (0 < examined &&
      SomePositive(vtxs[..examined], normal, faceVtx) && SomeNegative(vtxs[..examined], normal, faceVtx) &&
      !(SomePositive(vtxs[..examined - 1], normal, faceVtx) && SomeNegative(vtxs[..examined - 1], normal, faceVtx)))
  {
    var positive, negative := 0, 0;
    for i := 0 to |vtxs|
      invariant positive != 0 <==> SomePositive(vtxs[..i], normal, faceVtx)
      invariant negative != 0 <==> SomeNegative(vtxs[..i], normal, faceVtx)
      invariant !(positive != 0 && negative != 0)
    {
      PrefixStep(vtxs, normal, faceVtx, i);
      var t := Dot(normal, Sub(vtxs[i], faceVtx));
      if t > 0.0 {
        positive := positive + 1;
      } else if t < 0.0 {
        negative := negative + 1;
      }
      if positive != 0 && negative != 0 {
        PrefixMonotone(vtxs, normal, faceVtx, i + 1);
        return 0, i + 1;
      }
    }
    assert vtxs[..|vtxs|] == vtxs;
    if positive != 0 {
      r := 1;
    } else {
      r := -1;
    }
    examined := |vtxs|;
  }

  /** Extending a prefix by one point adds exactly that point's sign. */
  lemma PrefixStep(vtxs: seq<Vec3>, normal: Vec3, faceVtx: Vec3, i: nat)
    requires i < |vtxs|
    ensures SomePositive(vtxs[..i + 1], normal, faceVtx) <==>
      SomePositive(vtxs[..i], normal, faceVtx) || Projection(normal, vtxs[i], faceVtx) > 0.0
    ensures SomeNegative(vtxs[..i + 1], normal, faceVtx) <==>
      SomeNegative(vtxs[..i], normal, faceVtx) || Projection(normal, vtxs[i], faceVtx) < 0.0
  {
    var p := vtxs[..i + 1];
    assert p[i] == vtxs[i];
    assert forall k :: 0 <= k < i ==> p[k] == vtxs[..i][k];
  }

  /** What holds of a prefix holds of the whole list. */
  lemma PrefixMonotone(vtxs: seq<Vec3>, normal: Vec3, faceVtx: Vec3, n: nat)
    requires n <= |vtxs|
    ensures SomePositive(vtxs[..n], normal, faceVtx) ==> SomePositive(vtxs, normal, faceVtx)
    ensures SomeNegative(vtxs[..n], normal, faceVtx) ==> SomeNegative(vtxs, normal, faceVtx)
  {
    if SomePositive(vtxs[..n], normal, faceVtx) {
      var k :| 0 <= k < n && Projection(normal, vtxs[..n][k], faceVtx) > 0.0;
      assert vtxs[..n][k] == vtxs[k];
    }
    if SomeNegative(vtxs[..n], normal, faceVtx) {
      var k :| 0 <= k < n && Projection(normal, vtxs[..n][k], faceVtx) < 0.0;
      assert vtxs[..n][k] == vtxs[k];
    }
  }

  /** Only the direction of the normal matters, not its length: scaling it by a
      positive factor (as normalising does) leaves every classification unchanged. */
  lemma SideOfPositiveScale(vtxs: seq<Vec3>, normal: Vec3, faceVtx: Vec3, c: real)
    requires c > 0.0
    ensures SideOf(vtxs, Scale(c, normal), faceVtx) == SideOf(vtxs, normal, faceVtx)
  {
    forall i | 0 <= i < |vtxs|
      ensures Projection(Scale(c, normal), vtxs[i], faceVtx) > 0.0 <==> Projection(normal, vtxs[i], faceVtx) > 0.0
      ensures Projection(Scale(c, normal), vtxs[i], faceVtx) < 0.0 <==> Projection(normal, vtxs[i], faceVtx) < 0.0
    {
      DotScale(c, normal, Sub(vtxs[i], faceVtx));
      PositiveFactorKeepsSign(c, Projection(normal, vtxs[i], faceVtx));
    }
  }

  /** A zero axis puts every point on the plane, which classifies as -1. */
  lemma ZeroAxisSide(vtxs: seq<Vec3>, faceVtx: Vec3)
    ensures SideOf(vtxs, Zero, faceVtx) == -1
  {
  }

  // ---------------------------------------------------------------------------
  // The separating-axis test

  /** A face of one box proves separation when every corner of the other box lies
      on the positive side of its plane, none strictly on the negative side. */
  predicate FaceSeparates(f: BoundingFace, vtxs: seq<Vec3>) {
    SideOf(vtxs, f.normal, f.vertex.0) > 0
  }

  /** The edge pair (e1 of the first box, e2 of the second) proves separation when,
      along the axis e1.vector x e2.vector and relative to e1's first endpoint, the
      two corner lists lie on opposite, definite sides. */
  predicate EdgePairSeparates(e1: BoundingEdge, e2: BoundingEdge, vtxs1: seq<Vec3>, vtxs2: seq<Vec3>) {
    var d := Cross(e1.vector, e2.vector);
    SideOf(vtxs1, d, e1.vertex.0) * SideOf(vtxs2, d, e1.vertex.0) < 0
  }

  /** The verdict of the test, as a property of all 6 + 6 + 12 x 12 probes at once:
      both boxes have corners and no probe proves separation. */
  predicate Overlaps(a: BoundingBox, b: BoundingBox) {
    a.BoundingBox? && b.BoundingBox? &&
    (forall i :: 0 <= i < |a.face| ==> !FaceSeparates(a.face[i], b.vertex)) &&
    (forall i :: 0 <= i < |b.face| ==> !FaceSeparates(b.face[i], a.vertex)) &&
    (forall i, j :: 0 <= i < |a.edge| && 0 <= j < |b.edge| ==>
      !EdgePairSeparates(a.edge[i], b.edge[j], a.vertex, b.vertex))
  }

  /** `intersect`: the faces of `a` against the corners of `bb`, the faces of `bb`
      against the corners of `a`, then every edge pair, returning false at the
      first probe that proves separation. */
  method Intersect(a: BoundingBox, bb: BoundingBox) returns (r: bool)
    ensures r == Overlaps(a, bb)
    ensures a == NoVertex || bb == NoVertex ==> !r
  {
    r := false;
    if a.BoundingBox? && bb.BoundingBox? {
      for i := 0 to |a.face|
        invariant forall k :: 0 <= k < i ==> !FaceSeparates(a.face[k], bb.vertex)
      {
        var f := a.face[i];
        var side, _ := WhichSide(bb.vertex, f.normal, f.vertex.0);
        if side > 0 {
          return false;
        }
      }
      for i := 0 to |bb.face|
        invariant forall k :: 0 <= k < i ==> !FaceSeparates(bb.face[k], a.vertex)
      {
        var f := bb.face[i];
        var side, _ := WhichSide(a.vertex, f.normal, f.vertex.0);
        if side > 0 {
          return false;
        }
      }
      for i := 0 to |a.edge|
        invariant forall k, l :: 0 <= k < i && 0 <= l < |bb.edge| ==>
          !EdgePairSeparates(a.edge[k], bb.edge[l], a.vertex, bb.vertex)
      {
        var e1 := a.edge[i];
        for j := 0 to |bb.edge|
          invariant forall k, l :: 0 <= k < i && 0 <= l < |bb.edge| ==>
            !EdgePairSeparates(a.edge[k], bb.edge[l], a.vertex, bb.vertex)
          invariant forall l :: 0 <= l < j ==> !EdgePairSeparates(e1, bb.edge[l], a.vertex, bb.vertex)
        {
          var e2 := bb.edge[j];
          var d := Cross(e1.vector, e2.vector);
          var side0, _ := WhichSide(a.vertex, d, e1.vertex.0);
          if side0 == 0 {
            continue;
          }
          var side1, _ := WhichSide(bb.vertex, d, e1.vertex.0);
          if side1 == 0 {
            continue;
          }
          if side0 * side1 < 0 {
            return false;
          }
        }
      }
      r := true;
    }
  }

  // ---------------------------------------------------------------------------
  // Properties of the test

  /** Parallel edges (zero cross product) never prove separation: both corner
      lists classify as -1 against the zero axis. */
  lemma ParallelEdgesNeverSeparate(e1: BoundingEdge, e2: BoundingEdge, vtxs1: seq<Vec3>, vtxs2: seq<Vec3>)
    requires Cross(e1.vector, e2.vector) == Zero
    ensures SideOf(vtxs1, Cross(e1.vector, e2.vector), e1.vertex.0) == -1
    ensures SideOf(vtxs2, Cross(e1.vector, e2.vector), e1.vertex.0) == -1
    ensures !EdgePairSeparates(e1, e2, vtxs1, vtxs2)
  {
    ZeroAxisSide(vtxs1, e1.vertex.0);
    ZeroAxisSide(vtxs2, e1.vertex.0);
  }

  /** The probe axis of an edge pair is perpendicular to the first edge, so both of
      its endpoints lie on the probe plane. */
  lemma EdgeLiesOnProbePlane(e1: BoundingEdge, e2: BoundingEdge)
    requires e1.vector == Sub(e1.vertex.1, e1.vertex.0)
    ensures Projection(Cross(e1.vector, e2.vector), e1.vertex.0, e1.vertex.0) == 0.0
    ensures Projection(Cross(e1.vector, e2.vector), e1.vertex.1, e1.vertex.0) == 0.0
  {
    CrossOrthogonal(e1.vector, e2.vector);
  }

  /** A face's normal is perpendicular to the face: its three corners lie on the
      plane the face probes test against. */
  lemma {:induction false} FaceLiesOnItsPlane(v0: Vec3, v1: Vec3, v2: Vec3)
    ensures var f := NewFace(v0, v1, v2);
      Projection(f.normal, f.vertex.0, f.vertex.0) == 0.0 &&
      Projection(f.normal, f.vertex.1, f.vertex.0) == 0.0 &&
      Projection(f.normal, f.vertex.2, f.vertex.0) == 0.0
  {
    var a, b := Sub(v1, v0), Sub(v2, v0);
    CrossOrthogonal(a, b);
    assert Dot(Cross(a, b), b) == 0.0;
  }

  /** A box lies on the inner (non-positive) side of every one of its faces: the
      convexity and outward orientation the face probes rely on. */
  predicate FacesOutward(bb: BoundingBox)
    requires bb.BoundingBox?
  {
    forall f, v :: f in bb.face && v in bb.vertex ==> Projection(f.normal, v, f.vertex.0) <= 0.0
  }

  /** Plane (normal, p) separates `inner` from `outer`: every inner point on the
      non-positive side, every outer point on the non-negative side and at least
      one strictly off the plane. */
  predicate Separates(normal: Vec3, p: Vec3, inner: seq<Vec3>, outer: seq<Vec3>) {
    (forall v :: v in inner ==> Projection(normal, v, p) <= 0.0) &&
    (forall v :: v in outer ==> Projection(normal, v, p) >= 0.0) &&
    SomePositive(outer, normal, p)
  }

  /** Soundness of a negative verdict: for boxes whose faces point outward, a
      verdict of no overlap comes with a plane that separates the two corner lists. */
  lemma NoOverlapHasSeparatingPlane(a: BoundingBox, b: BoundingBox)
    requires a.BoundingBox? && b.BoundingBox? && FacesOutward(a) && FacesOutward(b)
    requires !Overlaps(a, b)
    ensures exists normal, p :: Separates(normal, p, a.vertex, b.vertex) || Separates(normal, p, b.vertex, a.vertex)
  {
    if i :| 0 <= i < |a.face| && FaceSeparates(a.face[i], b.vertex) {
      var f := a.face[i];
      NonNegativeSide(b.vertex, f.normal, f.vertex.0);
      assert Separates(f.normal, f.vertex.0, a.vertex, b.vertex);
    } else if i :| 0 <= i < |b.face| && FaceSeparates(b.face[i], a.vertex) {
      var f := b.face[i];
      NonNegativeSide(a.vertex, f.normal, f.vertex.0);
      assert Separates(f.normal, f.vertex.0, b.vertex, a.vertex);
    } else {
      var i, j :| 0 <= i < |a.edge| && 0 <= j < |b.edge| &&
        EdgePairSeparates(a.edge[i], b.edge[j], a.vertex, b.vertex);
      var d := Cross(a.edge[i].vector, b.edge[j].vector);
      var p := a.edge[i].vertex.0;
      NonNegativeSide(a.vertex, d, p);
      NonNegativeSide(b.vertex, d, p);
      if SideOf(a.vertex, d, p) == 1 {
        assert Separates(d, p, b.vertex, a.vertex);
      } else {
        assert Separates(d, p, a.vertex, b.vertex);
      }
    }
  }

  /** What the two definite classifications say about each point. */
  lemma NonNegativeSide(vtxs: seq<Vec3>, normal: Vec3, faceVtx: Vec3)
    ensures !SomeNegative(vtxs, normal, faceVtx) ==> forall v :: v in vtxs ==> Projection(normal, v, faceVtx) >= 0.0
    ensures !SomePositive(vtxs, normal, faceVtx) ==> forall v :: v in vtxs ==> Projection(normal, v, faceVtx) <= 0.0
  {
    forall v | v in vtxs
      ensures !SomeNegative(vtxs, normal, faceVtx) ==> Projection(normal, v, faceVtx) >= 0.0
      ensures !SomePositive(vtxs, normal, faceVtx) ==> Projection(normal, v, faceVtx) <= 0.0
    {
      var k :| 0 <= k < |vtxs| && vtxs[k] == v;
    }
  }

  /** A box whose faces point outward overlaps itself: no face puts a corner of the
      box strictly outside, and along every edge axis both corner lists are the same
      list, so they always classify alike. */
  lemma SelfOverlaps(a: BoundingBox)
    requires a.BoundingBox? && FacesOutward(a)
    ensures Overlaps(a, a)
  {
    forall i | 0 <= i < |a.face|
      ensures !FaceSeparates(a.face[i], a.vertex)
    {
      var f := a.face[i];
      forall k | 0 <= k < |a.vertex|
        ensures Projection(f.normal, a.vertex[k], f.vertex.0) <= 0.0
      {
        assert f in a.face && a.vertex[k] in a.vertex;
      }
    }
  }
}

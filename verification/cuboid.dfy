/** Axis-aligned boxes, with their corners in Blender's bounding-box order, as
    inputs to the separating-axis test of module Boxes: for them the test's verdict
    is exactly "the open extents overlap on all three axes". */
module Cuboids {
  import opened Vectors
  import opened Boxes

  /** lo is strictly below hi on every axis. */
  predicate Proper(lo: Vec3, hi: Vec3) {
    lo.x < hi.x && lo.y < hi.y && lo.z < hi.z
  }

  /** The corners of the box [lo, hi]: 0-3 on the x = lo.x side in the order
      (lo, lo), (lo, hi), (hi, hi), (hi, lo) of (y, z), and 4-7 the same on the
      x = hi.x side. */
  function Cuboid(lo: Vec3, hi: Vec3): (c: seq<Vec3>)
    ensures |c| == 8 && c[0] == lo && c[6] == hi
  {
    [Vec3(lo.x, lo.y, lo.z), Vec3(lo.x, lo.y, hi.z), Vec3(lo.x, hi.y, hi.z), Vec3(lo.x, hi.y, lo.z),
     Vec3(hi.x, lo.y, lo.z), Vec3(hi.x, lo.y, hi.z), Vec3(hi.x, hi.y, hi.z), Vec3(hi.x, hi.y, lo.z)]
  }

  /** The open extents of the two boxes overlap on every axis. */
  predicate OpenOverlap(loA: Vec3, hiA: Vec3, loB: Vec3, hiB: Vec3) {
    loB.x < hiA.x && loA.x < hiB.x &&
    loB.y < hiA.y && loA.y < hiB.y &&
    loB.z < hiA.z && loA.z < hiB.z
  }

  /** A vector with at most one nonzero coordinate. */
  predicate AxisAligned(v: Vec3) {
    (v.y == 0.0 && v.z == 0.0) || (v.x == 0.0 && v.z == 0.0) || (v.x == 0.0 && v.y == 0.0)
  }

  predicate IsCorner(lo: Vec3, hi: Vec3, p: Vec3) {
    (p.x == lo.x || p.x == hi.x) && (p.y == lo.y || p.y == hi.y) && (p.z == lo.z || p.z == hi.z)
  }

  /** The classification of two projections u and w, as SideOf gives it. */
  function Side2(u: real, w: real): int {
    if (u > 0.0 || w > 0.0) && (u < 0.0 || w < 0.0) then 0
    else if u > 0.0 || w > 0.0 then 1
    else -1
  }

  lemma Side2Scale(c: real, u: real, w: real)
    requires c > 0.0
    ensures Side2(c * u, c * w) == Side2(u, w)
  {
    PositiveFactorKeepsSign(c, u);
    PositiveFactorKeepsSign(c, w);
  }

  /** Along an axis, the eight corners of a box project onto just two values, those
      of lo and hi, so the box classifies as that pair does. */
  lemma CuboidSide(lo: Vec3, hi: Vec3, n: Vec3, p: Vec3)
    requires AxisAligned(n)
    ensures SideOf(Cuboid(lo, hi), n, p) == Side2(Projection(n, lo, p), Projection(n, hi, p))
  {
    var c := Cuboid(lo, hi);
    var u, w := Projection(n, lo, p), Projection(n, hi, p);
    forall k | 0 <= k < 8
      ensures Projection(n, c[k], p) == u || Projection(n, c[k], p) == w
    {
    }
    assert Projection(n, c[0], p) == u;
    assert Projection(n, c[6], p) == w;
  }

  /** The outward unit axis of face k of a box. */
  function FaceAxis(k: nat): Vec3
    requires k < 6
  {
    [Vec3(-1.0, 0.0, 0.0), Vec3(0.0, -1.0, 0.0), Vec3(0.0, 0.0, -1.0),
     Vec3(1.0, 0.0, 0.0), Vec3(0.0, 1.0, 0.0), Vec3(0.0, 0.0, 1.0)][k]
  }

  /** The length of the normal of face k of box [lo, hi]: the area of that face. */
  function FaceScale(lo: Vec3, hi: Vec3, k: nat): real
    requires k < 6
  {
    var dx, dy, dz := hi.x - lo.x, hi.y - lo.y, hi.z - lo.z;
    [dy * dz, dx * dz, dx * dy, dy * dz, dx * dz, dx * dy][k]
  }

  /** Face k of a box: its normal is a positive multiple of the outward axis
      FaceAxis(k), and it is anchored at lo for the first three faces and at hi for
      the last three. */
  lemma CuboidFace(lo: Vec3, hi: Vec3, k: nat)
    requires Proper(lo, hi) && k < 6
    ensures var f := NewBoundingBox(Cuboid(lo, hi)).face[k];
      f.vertex.0 == (if k < 3 then lo else hi) &&
      FaceScale(lo, hi, k) > 0.0 && f.normal == Scale(FaceScale(lo, hi, k), FaceAxis(k))
  {
    var c := Cuboid(lo, hi);
    var t := FaceCorners[k];
    assert NewBoundingBox(c).face[k] == NewFace(c[t.0], c[t.1], c[t.2]);
    FaceScalePositive(lo, hi, k);
    CuboidFaceNormal(lo, hi, k);
  }

  lemma FaceScalePositive(lo: Vec3, hi: Vec3, k: nat)
    requires Proper(lo, hi) && k < 6
    ensures FaceScale(lo, hi, k) > 0.0
  {
    var dx, dy, dz := hi.x - lo.x, hi.y - lo.y, hi.z - lo.z;
    if k == 0 || k == 3 {
      PositiveFactorKeepsSign(dy, dz);
    } else if k == 1 || k == 4 {
      PositiveFactorKeepsSign(dx, dz);
    } else {
      PositiveFactorKeepsSign(dx, dy);
    }
  }

  /** The normal the face wiring gives face k of a box. */
  lemma CuboidFaceNormal(lo: Vec3, hi: Vec3, k: nat)
    requires k < 6
    ensures var c, t := Cuboid(lo, hi), FaceCorners[k];
      TriangleNormal(c[t.0], c[t.1], c[t.2]) == Scale(FaceScale(lo, hi, k), FaceAxis(k))
  {
    if k == 0 {
      FaceNormal0(lo, hi);
    } else if k == 1 {
      FaceNormal1(lo, hi);
    } else if k == 2 {
      FaceNormal2(lo, hi);
    } else if k == 3 {
      FaceNormal3(lo, hi);
    } else if k == 4 {
      FaceNormal4(lo, hi);
    } else {
      FaceNormal5(lo, hi);
    }
  }

  /** Corners 0, 1, 3 span the x = lo.x face. */
  lemma FaceNormal0(lo: Vec3, hi: Vec3)
    ensures TriangleNormal(Cuboid(lo, hi)[0], Cuboid(lo, hi)[1], Cuboid(lo, hi)[3]) == Scale(FaceScale(lo, hi, 0), FaceAxis(0))
  {
    var dx, dy, dz := hi.x - lo.x, hi.y - lo.y, hi.z - lo.z;
    assert TriangleNormal(Cuboid(lo, hi)[0], Cuboid(lo, hi)[1], Cuboid(lo, hi)[3]) == Vec3(-(dz * dy), 0.0, 0.0);
  }

  /** Corners 0, 4, 1 span the y = lo.y face. */
  lemma FaceNormal1(lo: Vec3, hi: Vec3)
    ensures TriangleNormal(Cuboid(lo, hi)[0], Cuboid(lo, hi)[4], Cuboid(lo, hi)[1]) == Scale(FaceScale(lo, hi, 1), FaceAxis(1))
  {
    var dx, dy, dz := hi.x - lo.x, hi.y - lo.y, hi.z - lo.z;
    assert TriangleNormal(Cuboid(lo, hi)[0], Cuboid(lo, hi)[4], Cuboid(lo, hi)[1]) == Vec3(0.0, -(dx * dz), 0.0);
  }

  /** Corners 0, 3, 4 span the z = lo.z face. */
  lemma FaceNormal2(lo: Vec3, hi: Vec3)
    ensures TriangleNormal(Cuboid(lo, hi)[0], Cuboid(lo, hi)[3], Cuboid(lo, hi)[4]) == Scale(FaceScale(lo, hi, 2), FaceAxis(2))
  {
    var dx, dy, dz := hi.x - lo.x, hi.y - lo.y, hi.z - lo.z;
    assert TriangleNormal(Cuboid(lo, hi)[0], Cuboid(lo, hi)[3], Cuboid(lo, hi)[4]) == Vec3(0.0, 0.0, -(dy * dx));
  }

  /** Corners 6, 5, 7 span the x = hi.x face. */
  lemma FaceNormal3(lo: Vec3, hi: Vec3)
    ensures TriangleNormal(Cuboid(lo, hi)[6], Cuboid(lo, hi)[5], Cuboid(lo, hi)[7]) == Scale(FaceScale(lo, hi, 3), FaceAxis(3))
  {
    var dx, dy, dz := hi.x - lo.x, hi.y - lo.y, hi.z - lo.z;
    assert TriangleNormal(Cuboid(lo, hi)[6], Cuboid(lo, hi)[5], Cuboid(lo, hi)[7]) == Vec3((-dy) * (-dz), 0.0, 0.0);
  }

  /** Corners 6, 7, 2 span the y = hi.y face. */
  lemma FaceNormal4(lo: Vec3, hi: Vec3)
    ensures TriangleNormal(Cuboid(lo, hi)[6], Cuboid(lo, hi)[7], Cuboid(lo, hi)[2]) == Scale(FaceScale(lo, hi, 4), FaceAxis(4))
  {
    var dx, dy, dz := hi.x - lo.x, hi.y - lo.y, hi.z - lo.z;
    assert TriangleNormal(Cuboid(lo, hi)[6], Cuboid(lo, hi)[7], Cuboid(lo, hi)[2]) == Vec3(0.0, (-dz) * (-dx), 0.0);
  }

  /** Corners 6, 2, 5 span the z = hi.z face. */
  lemma FaceNormal5(lo: Vec3, hi: Vec3)
    ensures TriangleNormal(Cuboid(lo, hi)[6], Cuboid(lo, hi)[2], Cuboid(lo, hi)[5]) == Scale(FaceScale(lo, hi, 5), FaceAxis(5))
  {
    var dx, dy, dz := hi.x - lo.x, hi.y - lo.y, hi.z - lo.z;
    assert TriangleNormal(Cuboid(lo, hi)[6], Cuboid(lo, hi)[2], Cuboid(lo, hi)[5]) == Vec3(0.0, 0.0, (-dx) * (-dy));
  }

  /** A box classifies against a positive multiple of an axis as its two extreme
      corners classify against the axis itself. */
  lemma ScaledAxisSide(lo: Vec3, hi: Vec3, normal: Vec3, axis: Vec3, scale: real, p: Vec3)
    requires scale > 0.0 && normal == Scale(scale, axis) && AxisAligned(axis)
    ensures SideOf(Cuboid(lo, hi), normal, p) == Side2(Projection(axis, lo, p), Projection(axis, hi, p))
  {
    SideOfPositiveScale(Cuboid(lo, hi), axis, p, scale);
    CuboidSide(lo, hi, axis, p);
  }

  /** How the corners of box B classify against face k of box A: as the two extreme
      corners of B classify against the face's outward unit axis. */
  lemma FaceSide(loA: Vec3, hiA: Vec3, loB: Vec3, hiB: Vec3, k: nat)
    requires Proper(loA, hiA) && k < 6
    ensures var f := NewBoundingBox(Cuboid(loA, hiA)).face[k];
      f.vertex.0 == (if k < 3 then loA else hiA) &&
      SideOf(Cuboid(loB, hiB), f.normal, f.vertex.0) ==
        Side2(Projection(FaceAxis(k), loB, f.vertex.0), Projection(FaceAxis(k), hiB, f.vertex.0))
  {
    var f := NewBoundingBox(Cuboid(loA, hiA)).face[k];
    CuboidFace(loA, hiA, k);
    ScaledAxisSide(loB, hiB, f.normal, FaceAxis(k), FaceScale(loA, hiA, k), f.vertex.0);
  }

  /** Face k of box A separates it from box B exactly when B lies beyond that face,
      touching allowed. */
  lemma FaceProbes(loA: Vec3, hiA: Vec3, loB: Vec3, hiB: Vec3)
    requires Proper(loA, hiA) && Proper(loB, hiB)
    ensures var a := NewBoundingBox(Cuboid(loA, hiA)); var vb := Cuboid(loB, hiB);
      (FaceSeparates(a.face[0], vb) <==> hiB.x <= loA.x) &&
      (FaceSeparates(a.face[1], vb) <==> hiB.y <= loA.y) &&
      (FaceSeparates(a.face[2], vb) <==> hiB.z <= loA.z) &&
      (FaceSeparates(a.face[3], vb) <==> hiA.x <= loB.x) &&
      (FaceSeparates(a.face[4], vb) <==> hiA.y <= loB.y) &&
      (FaceSeparates(a.face[5], vb) <==> hiA.z <= loB.z)
  {
    FaceSide(loA, hiA, loB, hiB, 0);
    FaceSide(loA, hiA, loB, hiB, 1);
    FaceSide(loA, hiA, loB, hiB, 2);
    FaceSide(loA, hiA, loB, hiB, 3);
    FaceSide(loA, hiA, loB, hiB, 4);
    FaceSide(loA, hiA, loB, hiB, 5);
  }

  /** The edges of a box run along the axes and start at corners. */
  lemma CuboidEdges(lo: Vec3, hi: Vec3)
    ensures var bb := NewBoundingBox(Cuboid(lo, hi));
      forall e :: e in bb.edge ==> AxisAligned(e.vector) && IsCorner(lo, hi, e.vertex.0)
  {
    var c := Cuboid(lo, hi);
    var bb := NewBoundingBox(c);
    forall i | 0 <= i < 12
      ensures AxisAligned(bb.edge[i].vector)
    {
      assert i < 4 || 4 <= i < 8 || 8 <= i < 12;
    }
    forall v | v in c[..8]
      ensures IsCorner(lo, hi, v)
    {
    }
  }

  lemma CrossAxisAligned(a: Vec3, b: Vec3)
    requires AxisAligned(a) && AxisAligned(b)
    ensures AxisAligned(Cross(a, b))
  {
  }

  /** Along an axis, classified relative to an end of A's extent, two boxes with
      overlapping open extents never lie on opposite definite sides. */
  lemma Probe1D(t: real, a0: real, a1: real, b0: real, b1: real, c: real)
    requires a0 < a1 && b0 < b1 && b0 < a1 && a0 < b1 && (c == a0 || c == a1)
    ensures Side2(t * (a0 - c), t * (a1 - c)) * Side2(t * (b0 - c), t * (b1 - c)) >= 0
  {
    if t > 0.0 {
      Side2Scale(t, a0 - c, a1 - c);
      Side2Scale(t, b0 - c, b1 - c);
      if c == a0 {
        assert Side2(a0 - c, a1 - c) == 1 && Side2(b0 - c, b1 - c) >= 0;
      } else {
        assert Side2(a0 - c, a1 - c) == -1 && Side2(b0 - c, b1 - c) <= 0;
      }
    } else if t < 0.0 {
      Side2Scale(-t, c - a0, c - a1);
      Side2Scale(-t, c - b0, c - b1);
      assert t * (a0 - c) == -t * (c - a0) && t * (a1 - c) == -t * (c - a1);
      assert t * (b0 - c) == -t * (c - b0) && t * (b1 - c) == -t * (c - b1);
      if c == a0 {
        assert Side2(c - a0, c - a1) == -1 && Side2(c - b0, c - b1) <= 0;
      } else {
        assert Side2(c - a0, c - a1) == 1 && Side2(c - b0, c - b1) >= 0;
      }
    } else {
      assert Side2(t * (a0 - c), t * (a1 - c)) == -1 && Side2(t * (b0 - c), t * (b1 - c)) == -1;
    }
  }

  /** An axis-aligned probe anchored at a corner of A never separates A from B when
      their open extents overlap. */
  lemma AxisProbeInconclusive(loA: Vec3, hiA: Vec3, loB: Vec3, hiB: Vec3, d: Vec3, p: Vec3)
    requires Proper(loA, hiA) && Proper(loB, hiB) && OpenOverlap(loA, hiA, loB, hiB)
    requires AxisAligned(d) && IsCorner(loA, hiA, p)
    ensures SideOf(Cuboid(loA, hiA), d, p) * SideOf(Cuboid(loB, hiB), d, p) >= 0
  {
    CuboidSide(loA, hiA, d, p);
    CuboidSide(loB, hiB, d, p);
    AlignedPairs(loA, hiA, loB, hiB, d, p);
  }

  /** AxisProbeInconclusive, on the two extreme corners of each box. */
  lemma AlignedPairs(loA: Vec3, hiA: Vec3, loB: Vec3, hiB: Vec3, d: Vec3, p: Vec3)
    requires Proper(loA, hiA) && Proper(loB, hiB) && OpenOverlap(loA, hiA, loB, hiB)
    requires AxisAligned(d) && IsCorner(loA, hiA, p)
    ensures Side2(Projection(d, loA, p), Projection(d, hiA, p)) *
            Side2(Projection(d, loB, p), Projection(d, hiB, p)) >= 0
  {
    if d.y == 0.0 && d.z == 0.0 {
      AlongX(loA, hiA, loB, hiB, d, p);
    } else if d.x == 0.0 && d.z == 0.0 {
      AlongY(loA, hiA, loB, hiB, d, p);
    } else {
      AlongZ(loA, hiA, loB, hiB, d, p);
    }
  }

  lemma AlongX(loA: Vec3, hiA: Vec3, loB: Vec3, hiB: Vec3, d: Vec3, p: Vec3)
    requires loA.x < hiA.x && loB.x < hiB.x && loB.x < hiA.x && loA.x < hiB.x && (p.x == loA.x || p.x == hiA.x)
    requires d.y == 0.0 && d.z == 0.0
    ensures Side2(Projection(d, loA, p), Projection(d, hiA, p)) *
            Side2(Projection(d, loB, p), Projection(d, hiB, p)) >= 0
  {
    SidesAgree(Projection(d, loA, p), Projection(d, hiA, p), Projection(d, loB, p), Projection(d, hiB, p),
               d.x, loA.x, hiA.x, loB.x, hiB.x, p.x);
  }

  lemma AlongY(loA: Vec3, hiA: Vec3, loB: Vec3, hiB: Vec3, d: Vec3, p: Vec3)
    requires loA.y < hiA.y && loB.y < hiB.y && loB.y < hiA.y && loA.y < hiB.y && (p.y == loA.y || p.y == hiA.y)
    requires d.x == 0.0 && d.z == 0.0
    ensures Side2(Projection(d, loA, p), Projection(d, hiA, p)) *
            Side2(Projection(d, loB, p), Projection(d, hiB, p)) >= 0
  {
    SidesAgree(Projection(d, loA, p), Projection(d, hiA, p), Projection(d, loB, p), Projection(d, hiB, p),
               d.y, loA.y, hiA.y, loB.y, hiB.y, p.y);
  }

  lemma AlongZ(loA: Vec3, hiA: Vec3, loB: Vec3, hiB: Vec3, d: Vec3, p: Vec3)
    requires loA.z < hiA.z && loB.z < hiB.z && loB.z < hiA.z && loA.z < hiB.z && (p.z == loA.z || p.z == hiA.z)
    requires d.x == 0.0 && d.y == 0.0
    ensures Side2(Projection(d, loA, p), Projection(d, hiA, p)) *
            Side2(Projection(d, loB, p), Projection(d, hiB, p)) >= 0
  {
    SidesAgree(Projection(d, loA, p), Projection(d, hiA, p), Projection(d, loB, p), Projection(d, hiB, p),
               d.z, loA.z, hiA.z, loB.z, hiB.z, p.z);
  }

  /** Probe1D, for projections already reduced to one axis. */
  lemma SidesAgree(u0: real, u1: real, w0: real, w1: real, t: real, a0: real, a1: real, b0: real, b1: real, c: real)
    requires a0 < a1 && b0 < b1 && b0 < a1 && a0 < b1 && (c == a0 || c == a1)
    requires u0 == t * (a0 - c) && u1 == t * (a1 - c) && w0 == t * (b0 - c) && w1 == t * (b1 - c)
    ensures Side2(u0, u1) * Side2(w0, w1) >= 0
  {
    Probe1D(t, a0, a1, b0, b1, c);
  }

  /** The separating-axis test on two axis-aligned boxes reports overlap exactly
      when their open extents overlap on all three axes. In particular boxes that
      only touch (share a face, an edge or a corner) are reported as not
      overlapping. */
  lemma CuboidOverlaps(loA: Vec3, hiA: Vec3, loB: Vec3, hiB: Vec3)
    requires Proper(loA, hiA) && Proper(loB, hiB)
    ensures Overlaps(NewBoundingBox(Cuboid(loA, hiA)), NewBoundingBox(Cuboid(loB, hiB))) <==>
      OpenOverlap(loA, hiA, loB, hiB)
  {
    if OpenOverlap(loA, hiA, loB, hiB) {
      FacePassClear(loA, hiA, loB, hiB);
      FacePassClear(loB, hiB, loA, hiA);
      EdgePassClear(loA, hiA, loB, hiB);
    } else {
      FaceProbes(loA, hiA, loB, hiB);
    }
  }

  /** No face of A separates it from B when their open extents overlap. */
  lemma FacePassClear(loA: Vec3, hiA: Vec3, loB: Vec3, hiB: Vec3)
    requires Proper(loA, hiA) && Proper(loB, hiB)
    requires OpenOverlap(loA, hiA, loB, hiB)
    ensures var a := NewBoundingBox(Cuboid(loA, hiA));
      forall i :: 0 <= i < |a.face| ==> !FaceSeparates(a.face[i], Cuboid(loB, hiB))
  {
    var a := NewBoundingBox(Cuboid(loA, hiA));
    FaceProbes(loA, hiA, loB, hiB);
    forall i | 0 <= i < 6
      ensures !FaceSeparates(a.face[i], Cuboid(loB, hiB))
    {
      assert i == 0 || i == 1 || i == 2 || i == 3 || i == 4 || i == 5;
    }
  }

  /** No edge pair separates two axis-aligned boxes whose open extents overlap. */
  lemma EdgePassClear(loA: Vec3, hiA: Vec3, loB: Vec3, hiB: Vec3)
    requires Proper(loA, hiA) && Proper(loB, hiB) && OpenOverlap(loA, hiA, loB, hiB)
    ensures var a, b := NewBoundingBox(Cuboid(loA, hiA)), NewBoundingBox(Cuboid(loB, hiB));
      forall i, j :: 0 <= i < |a.edge| && 0 <= j < |b.edge| ==>
        !EdgePairSeparates(a.edge[i], b.edge[j], a.vertex, b.vertex)
  {
    var a, b := NewBoundingBox(Cuboid(loA, hiA)), NewBoundingBox(Cuboid(loB, hiB));
    CuboidEdges(loA, hiA);
    CuboidEdges(loB, hiB);
    forall i, j | 0 <= i < 12 && 0 <= j < 12
      ensures !EdgePairSeparates(a.edge[i], b.edge[j], a.vertex, b.vertex)
    {
      var e1, e2 := a.edge[i], b.edge[j];
      assert e1 in a.edge && e2 in b.edge;
      CrossAxisAligned(e1.vector, e2.vector);
      AxisProbeInconclusive(loA, hiA, loB, hiB, Cross(e1.vector, e2.vector), e1.vertex.0);
    }
  }

  /** The faces of a box point away from it: every corner lies on the inner side of
      every face, so the separating-plane soundness lemma applies to these boxes. */
  lemma CuboidFacesOutward(lo: Vec3, hi: Vec3)
    requires Proper(lo, hi)
    ensures FacesOutward(NewBoundingBox(Cuboid(lo, hi)))
  {
    var bb := NewBoundingBox(Cuboid(lo, hi));
    forall f, v | f in bb.face && v in bb.vertex
      ensures Projection(f.normal, v, f.vertex.0) <= 0.0
    {
      var k :| 0 <= k < 6 && bb.face[k] == f;
      OwnFaceInward(lo, hi, k);
      NonNegativeSide(bb.vertex, f.normal, f.vertex.0);
    }
  }

  /** No corner of a box lies strictly outside one of its own faces. */
  lemma OwnFaceInward(lo: Vec3, hi: Vec3, k: nat)
    requires Proper(lo, hi) && k < 6
    ensures var f := NewBoundingBox(Cuboid(lo, hi)).face[k];
      !SomePositive(Cuboid(lo, hi), f.normal, f.vertex.0)
  {
    FaceSide(lo, hi, lo, hi, k);
    OwnExtremesInward(lo, hi, k);
  }

  /** Both extreme corners of a box lie on the inner side of its own faces. */
  lemma OwnExtremesInward(lo: Vec3, hi: Vec3, k: nat)
    requires Proper(lo, hi) && k < 6
    ensures var p := if k < 3 then lo else hi;
      Projection(FaceAxis(k), lo, p) <= 0.0 && Projection(FaceAxis(k), hi, p) <= 0.0
  {
    if k == 0 {
      assert Projection(Vec3(-1.0, 0.0, 0.0), hi, lo) == lo.x - hi.x;
    } else if k == 1 {
      assert Projection(Vec3(0.0, -1.0, 0.0), hi, lo) == lo.y - hi.y;
    } else if k == 2 {
      assert Projection(Vec3(0.0, 0.0, -1.0), hi, lo) == lo.z - hi.z;
    } else if k == 3 {
      assert Projection(Vec3(1.0, 0.0, 0.0), lo, hi) == lo.x - hi.x;
    } else if k == 4 {
      assert Projection(Vec3(0.0, 1.0, 0.0), lo, hi) == lo.y - hi.y;
    } else {
      assert Projection(Vec3(0.0, 0.0, 1.0), lo, hi) == lo.z - hi.z;
    }
  }

  /** Unit cubes [0,1]^3 and [1,2]^3 share a face and are reported as not
      overlapping; [0,1]^3 and [0.9,1.9]^3 overlap; [0,1]^3 and [2,3]^3 do not. */
  lemma UnitCubeExamples()
    ensures !Overlaps(NewBoundingBox(Cuboid(Vec3(0.0, 0.0, 0.0), Vec3(1.0, 1.0, 1.0))),
                      NewBoundingBox(Cuboid(Vec3(1.0, 1.0, 1.0), Vec3(2.0, 2.0, 2.0))))
    ensures Overlaps(NewBoundingBox(Cuboid(Vec3(0.0, 0.0, 0.0), Vec3(1.0, 1.0, 1.0))),
                     NewBoundingBox(Cuboid(Vec3(0.9, 0.9, 0.9), Vec3(1.9, 1.9, 1.9))))
    ensures !Overlaps(NewBoundingBox(Cuboid(Vec3(0.0, 0.0, 0.0), Vec3(1.0, 1.0, 1.0))),
                      NewBoundingBox(Cuboid(Vec3(2.0, 2.0, 2.0), Vec3(3.0, 3.0, 3.0))))
  {
    var o, one := Vec3(0.0, 0.0, 0.0), Vec3(1.0, 1.0, 1.0);
    CuboidOverlaps(o, one, one, Vec3(2.0, 2.0, 2.0));
    CuboidOverlaps(o, one, Vec3(0.9, 0.9, 0.9), Vec3(1.9, 1.9, 1.9));
    CuboidOverlaps(o, one, Vec3(2.0, 2.0, 2.0), Vec3(3.0, 3.0, 3.0));
  }
}

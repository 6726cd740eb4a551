# Bounding-box overlap test and imperial distance text

This project models two parts of the drawing helpers of the BlenderBIM add-on
(`src/blenderbim/blenderbim/bim/module/drawing/helper.py`) and proves their properties.

1. **The separating-axis overlap test for two eight-corner boxes.** This covers
   `BoundingEdge`, `BoundingFace`, `BoundingBox` with its fixed wiring of 12 edges and
   6 faces, `whichSide` and `intersect`.
   - Module `Vectors` (`vec3.dfy`) holds exact 3-D vector arithmetic over `real`.
   - Module `Boxes` (`bounding_box.dfy`) holds the edge, face and box datatypes and the
     constructor as a function.
   - `whichSide` and `intersect` are methods with the source's loops and early returns.
     Each is proved equal to a declarative definition (`SideOf`, `Overlaps`). Neither
     definition depends on the order in which the probes run.
   - Module `Cuboids` (`cuboid.dfy`) feeds the test axis-aligned boxes with their corners
     in Blender's bounding-box order. It proves that the test reports overlap exactly
     when the open extents overlap on all three axes.
2. **The integer tail of the imperial branch of `format_distance`.** The inputs are
   whole feet, whole inches and a fraction `frac / base` of an inch, where `base` is a
   power of two.
   - The fraction is reduced to lowest terms, or, when it equals a whole inch, rounded
     into the inches.
   - Twelve inches are carried into a foot.
   - The text `F' - I N/D"` is assembled.
   - Module `Imperial` (`imperial.dfy`) holds this part, with the halving loop and the
     string building as methods.
   - Module `Decimal` (`decimal.dfy`) renders an `int` the way Python's `str` does.

Where the code and its documented intent differ, the model follows the code:

- `whichSide` returns -1, not +1, when every dot product is zero or the point list is
  empty (helper.py:62-65). `Boxes.SideOf` and `Boxes.ZeroAxisSide` state this.
- Boxes that only touch, sharing a face, an edge or a corner, are reported as **not**
  intersecting. The face probe counts zero dot products towards neither side, so a box
  that lies entirely on or beyond a face plane classifies as +1 and the face separates.
  `Cuboids.CuboidOverlaps` and `Cuboids.UnitCubeExamples` state this.

## Model

| member | source | states |
|---|---|---|
| Boxes.NewBoundingBox | src/blenderbim/blenderbim/bim/module/drawing/helper.py:9-46 | The edge and face constructors and the box wiring. A box built from a corner list keeps that list and has exactly 12 edges and 6 faces, wired by the fixed tables. Every edge runs between two of the first eight corners, and its vector is its second endpoint minus its first. Every face normal is the triangle normal of its three corners. Faces 0-2 are anchored at corner 0 and faces 3-5 at corner 6. |
| Boxes.FaceLiesOnItsPlane | src/blenderbim/blenderbim/bim/module/drawing/helper.py:15-18 | A face normal is perpendicular to its face: all three corners of a face project to zero on its normal, relative to the face's first corner. |
| Boxes.WiredIsBuilt | src/blenderbim/blenderbim/bim/module/drawing/helper.py:25-46 | Any box whose edges and faces follow the wiring tables is the box its corner list builds, so the corners determine the whole topology. |
| Boxes.WhichSide | src/blenderbim/blenderbim/bim/module/drawing/helper.py:48-66 | The result lies in {-1, 0, 1} and equals SideOf. It is 0 iff some point is strictly positive and some strictly negative. It is 1 iff some point is positive and none negative. It is -1 iff none is positive, which includes the all-zero and empty lists. When the result is 0, the scan stopped at the first point where both signs had been seen. Otherwise it looked at every point. |
| Boxes.SideOfPositiveScale | src/blenderbim/blenderbim/bim/module/drawing/helper.py:15-18 | Scaling a face normal by a positive factor, as normalising does, changes no classification. |
| Boxes.Intersect | src/blenderbim/blenderbim/bim/module/drawing/helper.py:69-99 | The result is true iff both boxes have corners and none of the 6 + 6 + 12×12 probes proves separation. A face separates when the other box classifies as +1 against it. An edge pair separates when, along e1 × e2 and relative to e1's first endpoint, the two boxes classify with opposite nonzero signs. A box without corners never intersects. |
| Boxes.ParallelEdgesNeverSeparate | src/blenderbim/blenderbim/bim/module/drawing/helper.py:85-96 | When two edges are parallel (zero cross product), both boxes classify as -1 against the probe axis, so the pair never separates. |
| Boxes.EdgeLiesOnProbePlane | src/blenderbim/blenderbim/bim/module/drawing/helper.py:85-88 | Both endpoints of e1 lie on the plane of its edge probe, so the first box always has points on that plane. |
| Boxes.NoOverlapHasSeparatingPlane | src/blenderbim/blenderbim/bim/module/drawing/helper.py:69-99 | Soundness of a "no intersection" verdict, for boxes that lie inside their own face planes. When the test finds no overlap, some plane has one box on its non-positive side and the other box on its non-negative side, with at least one corner strictly off the plane. |
| Boxes.SelfOverlaps | src/blenderbim/blenderbim/bim/module/drawing/helper.py:69-99 | A box that lies inside its own face planes intersects itself. |
| Cuboids.CuboidFace | src/blenderbim/blenderbim/bim/module/drawing/helper.py:39-46 | For an axis-aligned box, each wired face has an outward axis-aligned normal whose length is the face's area. The first three faces are anchored at the low corner and the last three at the high corner. |
| Cuboids.CuboidEdges | src/blenderbim/blenderbim/bim/module/drawing/helper.py:25-38 | Every wired edge of an axis-aligned box runs along an axis and starts at a corner. |
| Cuboids.FaceProbes | src/blenderbim/blenderbim/bim/module/drawing/helper.py:73-82 | Face k of box A separates it from box B exactly when B lies beyond that face on its axis, touching included. For example, face 0 separates iff hiB.x <= loA.x. |
| Cuboids.CuboidOverlaps | src/blenderbim/blenderbim/bim/module/drawing/helper.py:69-99 | For two axis-aligned boxes, the test reports overlap iff their open extents overlap on all three axes. |
| Cuboids.CuboidFacesOutward | src/blenderbim/blenderbim/bim/module/drawing/helper.py:39-46 | The wired faces of an axis-aligned box point outward: every corner lies on the non-positive side of every face. |
| Cuboids.UnitCubeExamples | src/blenderbim/blenderbim/bim/module/drawing/helper.py:69-99 | [0,1]³ and [1,2]³ touch and are reported as not intersecting. [0,1]³ and [0.9,1.9]³ intersect. [0,1]³ and [2,3]³ do not. |
| Decimal.IntToString | src/blenderbim/blenderbim/bim/module/drawing/helper.py:172-180 | `str` of an int starts with '-' exactly for negative numbers, and all its other characters are digits. Those digits read back give the magnitude of the number. The first digit is never '0' unless the number is 0, whose text is "0". |
| Decimal.NatToStringValue | src/blenderbim/blenderbim/bim/module/drawing/helper.py:172-180 | Reading the digits of `str(n)` back gives n. |
| Imperial.ReduceFraction | src/blenderbim/blenderbim/bim/module/drawing/helper.py:152-159 | Halving numerator and denominator together, at most log2(base) times, keeps the ratio. The result has a power-of-two denominator that divides base, and an odd numerator unless the denominator is 1. |
| Imperial.ReducedFormUnique | src/blenderbim/blenderbim/bim/module/drawing/helper.py:152-159 | That reduced form is unique, so ReduceFraction's contract determines its result. |
| Imperial.ProperFraction | src/blenderbim/blenderbim/bim/module/drawing/helper.py:152-162 | A fraction equal to base becomes one more inch with fraction 0. Any other fraction keeps the inches and is reduced. The resulting fraction never equals its denominator. |
| Imperial.ComposeImperial | src/blenderbim/blenderbim/bim/module/drawing/helper.py:169-182 | The whole text for each of the eight combinations of nonzero feet, inches and fraction. For example it is `F' - I N/D"` when all three are nonzero, `F'N/D"` with no inches, and `I N/D"` with no feet, where F, I, N and D are `str` of feet, inches, numerator and denominator. So " - " stands only between feet and inches. Also, the text holds ' iff feet != 0, / iff frac != 0, " iff inches or frac != 0, and a space iff inches stand next to feet or a fraction. |
| Imperial.LayoutShowsMarks | src/blenderbim/blenderbim/bim/module/drawing/helper.py:169-182 | The six pieces of the text, around any mark-free numerals, show exactly the marks described above. |
| Imperial.LayoutShowsNumbers | src/blenderbim/blenderbim/bim/module/drawing/helper.py:169-182 | The six pieces of the text, around any numerals, give the whole text stated above for each combination of nonzero parts. |
| Imperial.ImperialDistance | src/blenderbim/blenderbim/bim/module/drawing/helper.py:152-182 | Rounding, reducing and carrying keep the length in inches unchanged. The fraction is reduced and never a whole inch; it is zero iff it started zero or a whole inch. The feet and inches are pinned: one more inch when the fraction was a whole inch, then one more foot and zero inches exactly when that gives 12 inches. Inches outside 0..11 otherwise stay as they are. The text is the whole text ComposeImperial states for those parts. In terms of the inputs alone, it holds ' iff the carried feet are nonzero, / iff the fraction is neither 0 nor whole, and " iff there are inches left or a fraction. |
| Imperial.RoundingKeepsValue | src/blenderbim/blenderbim/bim/module/drawing/helper.py:152-162 | Rounding a whole-inch fraction into the inches, or reducing it, keeps the length. |
| Imperial.CarryKeepsValue | src/blenderbim/blenderbim/bim/module/drawing/helper.py:165-167 | Carrying twelve inches into a foot keeps the length. |

## Left out

- The scene-graph path of the `BoundingBox` constructor (helper.py:23) is not modelled: corners from `ob.bound_box` and `ob.matrix_world`. Boxes are built from a corner list. `NoVertex` stands for a box whose corner list is `None`, which is the case `intersect` guards against (helper.py:71). The constructor itself never produces that case: `vertex or [...]` yields a list or raises. `vertex` is `None` only if a caller reassigns it after construction.
- Boxes.NewBoundingBox requires at least eight corners. The source indexes corners 0 to 7 and raises `IndexError` on a shorter list. That failure is not modelled.
- `mathutils.geometry.normal` (helper.py:18) is a foreign call that returns the unit normal. The model uses the unnormalised cross product (v1 - v0) × (v2 - v0) instead. This is an assumption about that library. Boxes.SideOfPositiveScale shows that only the direction matters, and only signs of dot products are used.
- Floating point is not modelled: all arithmetic is exact over `real` and `int`. Rounding effects on the strict `> 0` and `< 0` tests are not covered.
- Only lines 152-182 of `format_distance` are modelled. Left out are the unit settings it reads, the float arithmetic that produces feet, inches and the fraction (`math.floor`, `round`), the precision setting, and the metric and area branches. The fraction tail takes those integers as inputs.
- Imperial.ReduceFraction requires `base` to be a power of two, as the precision settings ("1", "1/N", or 256 for none) provide. For other bases `int(math.log2(base))` bounds the loop differently, and this is not modelled. `int(frac / 2)` is modelled as exact halving, which is what it computes for the even values it is applied to.
- The unit systems other than imperial and metric are not modelled. At helper.py:236 they reach an undefined name `fmt`.
- `get_active_drawing` and `get_project_collection` (helper.py:241-259) are not part of this model. They are lookups in Blender's data with no algorithmic content.
- Symmetry of `intersect` is not claimed. The edge pass classifies both boxes relative to the first box's edge endpoint, and nothing in the code promises that swapping the boxes gives the same answer.
- Imperial.ImperialDistance: the parts the text shows are ghost results. The method's only real output is the text, as in the source. The feet and inches are pinned to the inputs. The reduced fraction is pinned only through ReducedForm, which ReducedFormUnique shows has one solution.

/** The intersection predicates of Math/intersect.cc. Each classifies a pair
    of shapes with an integer code: IIntersect when they meet, IReject when
    they are disjoint, and -IReject for "disjoint, on the negative side" when
    one of the shapes is a plane. */
module Intersect {
  import opened Vectors
  import opened Lines

  const IIntersect: int := 0
  const IReject: int := 1

  datatype Option<T> = None | Some(value: T)

  /** A bounding sphere. */
  datatype BSphere = BSphere(centre: Vector3, radius: real)

  /** An axis-aligned bounding box given by its two extreme corners. */
  datatype BBox = BBox(min: Vector3, max: Vector3)

  /** A plane, seen through the two queries this core makes of it: the
      distance of a point from the plane, and the side of the plane a point
      lies on (negative, zero or positive). Their definitions belong to the
      plane type and are not fixed here: everything below holds for any. */
  datatype Plane = Plane(distance: Vector3 -> real, whichSide: Vector3 -> int)

  /** The corners are ordered on every axis. */
  predicate ValidBox(box: BBox) {
    box.min.x <= box.max.x && box.min.y <= box.max.y && box.min.z <= box.max.z
  }

  /** p lies in the closed box. */
  predicate InBox(p: Vector3, box: BBox) {
    && box.min.x <= p.x <= box.max.x
    && box.min.y <= p.y <= box.max.y
    && box.min.z <= p.z <= box.max.z
  }

  /** p lies in the closed ball (for a non-negative radius). */
  predicate InBall(p: Vector3, s: BSphere) {
    SqLength(Sub(p, s.centre)) <= s.radius * s.radius
  }

  // ---------------------------------------------------------------------
  // Sphere against plane

  function BSpherePlaneIntersect(bs: BSphere, pl: Plane): (r: int)
    ensures r == IIntersect <==> pl.distance(bs.centre) <= bs.radius
    ensures r == -IReject <==> pl.distance(bs.centre) > bs.radius && pl.whichSide(bs.centre) < 0
    ensures r == IReject <==> pl.distance(bs.centre) > bs.radius && pl.whichSide(bs.centre) >= 0
  {
    if pl.distance(bs.centre) > bs.radius then
      if pl.whichSide(bs.centre) < 0 then -IReject else IReject
    else
      IIntersect
  }

  // ---------------------------------------------------------------------
  // Box against box

  /** The boxes' intervals on axis k do not overlap. */
  predicate SeparatedOn(a: BBox, b: BBox, k: nat)
    requires k < 3
  {
    Coord(a.min, k) > Coord(b.max, k) || Coord(b.min, k) > Coord(a.max, k)
  }

  function BBoxBBoxIntersect(a: BBox, b: BBox): (r: int)
    ensures r == IIntersect || r == IReject
    ensures r == IReject <==> exists k: nat :: k < 3 && SeparatedOn(a, b, k)
  {
    if a.min.x > b.max.x || b.min.x > a.max.x then
      assert SeparatedOn(a, b, 0); IReject
    else if a.min.y > b.max.y || b.min.y > a.max.y then
      assert SeparatedOn(a, b, 1); IReject
    else if a.min.z > b.max.z || b.min.z > a.max.z then
      assert SeparatedOn(a, b, 2); IReject
    else
      IIntersect
  }

  /** The test does not depend on the order of its arguments. */
  lemma BBoxBBoxSymmetric(a: BBox, b: BBox)
    ensures BBoxBBoxIntersect(a, b) == BBoxBBoxIntersect(b, a)
  {
  }

  /** For well-formed boxes the separating-axis test is exact: the boxes
      are reported intersecting iff they share a point. */
  lemma BBoxBBoxSharesPoint(a: BBox, b: BBox)
    requires ValidBox(a) && ValidBox(b)
    ensures BBoxBBoxIntersect(a, b) == IIntersect <==> exists p :: InBox(p, a) && InBox(p, b)
  {
    if BBoxBBoxIntersect(a, b) == IIntersect {
      var p := V(Max(a.min.x, b.min.x), Max(a.min.y, b.min.y), Max(a.min.z, b.min.z));
      assert !SeparatedOn(a, b, 0) && !SeparatedOn(a, b, 1) && !SeparatedOn(a, b, 2);
      assert InBox(p, a) && InBox(p, b);
    } else {
      forall p | InBox(p, a)
        ensures !InBox(p, b)
      {
        var k: nat :| k < 3 && SeparatedOn(a, b, k);
      }
    }
  }

  function Max(r: real, s: real): real {
    if r < s then s else r
  }

  // ---------------------------------------------------------------------
  // Box against plane

  /** The final rule of the box-plane test, given the two endpoints of the
      box diagonal it has chosen: their common side when the plane puts
      both on the same side, otherwise IIntersect. */
  function BBoxPlaneSide(pl: Plane, diagP1: Vector3, diagP2: Vector3): (r: int)
    ensures pl.whichSide(diagP1) == pl.whichSide(diagP2) ==> r == pl.whichSide(diagP1)
    ensures pl.whichSide(diagP1) != pl.whichSide(diagP2) ==> r == IIntersect
  {
    var sideP1 := pl.whichSide(diagP1);
    var sideP2 := pl.whichSide(diagP2);
    if sideP1 == sideP2 then sideP1 else IIntersect
  }

  /** The rule does not depend on the order of the endpoints, and any
      other outcome than IIntersect is a side both endpoints lie on. */
  lemma BBoxPlaneSideAgrees(pl: Plane, diagP1: Vector3, diagP2: Vector3)
    ensures BBoxPlaneSide(pl, diagP1, diagP2) == BBoxPlaneSide(pl, diagP2, diagP1)
    ensures BBoxPlaneSide(pl, diagP1, diagP2) != IIntersect ==>
      pl.whichSide(diagP1) == pl.whichSide(diagP2) == BBoxPlaneSide(pl, diagP1, diagP2)
  {
  }

  // ---------------------------------------------------------------------
  // Sphere against sphere

  function BSphereBSphereIntersect(a: BSphere, b: BSphere): (r: int)
    ensures r == IIntersect || r == IReject
    ensures r == IReject <==>
      SqLength(Sub(a.centre, b.centre)) > (a.radius + b.radius) * (a.radius + b.radius)
  {
    var v := Sub(a.centre, b.centre);
    var ls := Dot(v, v);
    var rs := a.radius + b.radius;
    if ls > rs * rs then IReject else IIntersect
  }

  /** The test does not depend on the order of the spheres. */
  lemma BSphereBSphereSymmetric(a: BSphere, b: BSphere)
    ensures BSphereBSphereIntersect(a, b) == BSphereBSphereIntersect(b, a)
  {
    SqLengthSubSwap(a.centre, b.centre);
  }

  /** For non-negative radii the squared-distance test is exact: the
      spheres are reported intersecting iff the two closed balls share a
      point. */
  lemma BSphereBSphereSharesPoint(a: BSphere, b: BSphere)
    requires a.radius >= 0.0 && b.radius >= 0.0
    ensures BSphereBSphereIntersect(a, b) == IIntersect <==> exists p :: InBall(p, a) && InBall(p, b)
  {
    if BSphereBSphereIntersect(a, b) == IIntersect {
      var p := SpheresMeetWitness(a, b);
    } else {
      forall p | InBall(p, a)
        ensures !InBall(p, b)
      {
        if InBall(p, b) {
          CommonPointBoundsCentres(a, b, p);
        }
      }
    }
  }

  /** When the centres are at most ra + rb apart, the point dividing the
      segment between them in the ratio ra : rb lies in both balls. */
  lemma SpheresMeetWitness(a: BSphere, b: BSphere) returns (p: Vector3)
    requires a.radius >= 0.0 && b.radius >= 0.0
    requires BSphereBSphereIntersect(a, b) == IIntersect
    ensures InBall(p, a) && InBall(p, b)
  {
    var v := Sub(a.centre, b.centre);
    var rs := a.radius + b.radius;
    assert SqLength(v) <= rs * rs;
    var t := RadiusRatio(a.radius, b.radius);
    p := Add(a.centre, Scale(t, Sub(b.centre, a.centre)));
    DividingPoint(a.centre, b.centre, t);
    ScaledOffsetBound(v, rs, -t, -a.radius);
    ScaledOffsetBound(v, rs, 1.0 - t, b.radius);
  }

  /** The fraction t of the way from one centre to the other that splits
      the distance in the ratio ra : rb. */
  lemma RadiusRatio(ra: real, rb: real) returns (t: real)
    requires ra >= 0.0 && rb >= 0.0
    ensures -t * (ra + rb) == -ra && (1.0 - t) * (ra + rb) == rb
  {
    // With both radii zero the ratio is immaterial: take the first centre.
    t := if ra + rb == 0.0 then 0.0 else ra / (ra + rb);
  }

  /** The offsets of ca + t (cb - ca) from the two centres. */
  lemma DividingPoint(ca: Vector3, cb: Vector3, t: real)
    ensures var p := Add(ca, Scale(t, Sub(cb, ca)));
      Sub(p, ca) == Scale(-t, Sub(ca, cb)) && Sub(p, cb) == Scale(1.0 - t, Sub(ca, cb))
  {
  }

  /** |v| <= rs scales to |k v| <= |r| when k rs == r. */
  lemma ScaledOffsetBound(v: Vector3, rs: real, k: real, r: real)
    requires SqLength(v) <= rs * rs && k * rs == r
    ensures SqLength(Scale(k, v)) <= r * r
  {
    SqLengthScale(k, v);
    ScaledSquareBound(k, SqLength(v), rs);
  }

  /** A point common to both balls puts the centres at most ra + rb apart. */
  lemma CommonPointBoundsCentres(a: BSphere, b: BSphere, p: Vector3)
    requires a.radius >= 0.0 && b.radius >= 0.0
    requires InBall(p, a) && InBall(p, b)
    ensures SqLength(Sub(a.centre, b.centre)) <= (a.radius + b.radius) * (a.radius + b.radius)
  {
    var u := Sub(a.centre, p);
    var w := Sub(p, b.centre);
    SqLengthSubSwap(p, a.centre);
    BallsMeetBound(u, w, a.radius, b.radius);
    assert Add(u, w) == Sub(a.centre, b.centre);
  }

  /** Two offsets bounded by ra and rb add up to at most ra + rb (the
      triangle inequality, squared). */
  lemma BallsMeetBound(u: Vector3, w: Vector3, ra: real, rb: real)
    requires ra >= 0.0 && rb >= 0.0
    requires SqLength(u) <= ra * ra && SqLength(w) <= rb * rb
    ensures SqLength(Add(u, w)) <= (ra + rb) * (ra + rb)
  {
    var uw := Dot(u, w);
    CauchySchwarz(u, w);
    SqLengthNonNegative(u);
    SqLengthNonNegative(w);
    MulMonotone(SqLength(u), ra * ra, SqLength(w), rb * rb);
    assert (ra * ra) * (rb * rb) == (ra * rb) * (ra * rb);
    if uw > ra * rb {
      MulNonNegative(ra, rb);
      SquareStrictlyMonotone(ra * rb, uw);
      assert false;
    }
    Pythagoras(u, w);
    assert Dot(w, u) == uw;
  }

  /** (u.w)^2 <= |u|^2 |w|^2, by Lagrange's identity. */
  lemma CauchySchwarz(u: Vector3, w: Vector3)
    ensures Dot(u, w) * Dot(u, w) <= SqLength(u) * SqLength(w)
  {
    assert SqLength(u) * SqLength(w) - Dot(u, w) * Dot(u, w) == SqLength(Cross(u, w));
    SqLengthNonNegative(Cross(u, w));
  }

  /** q <= rs^2 scales to k^2 q <= (k rs)^2. */
  lemma ScaledSquareBound(k: real, q: real, rs: real)
    requires q <= rs * rs
    ensures k * k * q <= (k * rs) * (k * rs)
  {
    SquareNonNegative(k);
    MulLeft(k * k, q, rs * rs);
    assert (k * rs) * (k * rs) == k * k * (rs * rs);
  }

  // ---------------------------------------------------------------------
  // Sphere against box (Arvo)

  /** How far c lies outside [lo, hi], measured as `BSphereBBoxIntersect`
      in Math/intersect.cc does: below lo first, otherwise above hi. */
  function AxisGap(c: real, lo: real, hi: real): (g: real)
    ensures g >= 0.0
    ensures lo <= c <= hi ==> g == 0.0
  {
    if c - lo < 0.0 then lo - c else if c - hi > 0.0 then c - hi else 0.0
  }

  function Square(r: real): real {
    r * r
  }

  /** The squared distance from c to the box, summed axis by axis. */
  function SqDistToBox(c: Vector3, box: BBox): real {
    Square(AxisGap(c.x, box.min.x, box.max.x))
    + Square(AxisGap(c.y, box.min.y, box.max.y))
    + Square(AxisGap(c.z, box.min.z, box.max.z))
  }

  /** One axis alone puts the centre farther from the box than the radius. */
  predicate AxisRejects(g: real, r: real) {
    g > 0.0 && g > r
  }

  /** Some axis triggers one of the early rejections of Math/intersect.cc
      `BSphereBBoxIntersect`. */
  predicate EarlyReject(s: BSphere, box: BBox) {
    || AxisRejects(AxisGap(s.centre.x, box.min.x, box.max.x), s.radius)
    || AxisRejects(AxisGap(s.centre.y, box.min.y, box.max.y), s.radius)
    || AxisRejects(AxisGap(s.centre.z, box.min.z, box.max.z), s.radius)
  }

  /** The outcome of the sphere-box test, with its early rejections. For a
      non-negative radius it is exactly "squared distance to the box is at
      most the squared radius": the early rejections never change it. */
  function BSphereBBoxOutcome(s: BSphere, box: BBox): (r: int)
    ensures r == IIntersect || r == IReject
    ensures s.radius >= 0.0 ==>
      (r == IIntersect <==> SqDistToBox(s.centre, box) <= s.radius * s.radius)
  {
    EarlyRejectRedundant(s, box);
    if EarlyReject(s, box) || SqDistToBox(s.centre, box) > s.radius * s.radius then IReject
    else IIntersect
  }

  /** For a non-negative radius, an axis that triggers an early rejection
      already makes the squared distance exceed the squared radius. */
  lemma EarlyRejectRedundant(s: BSphere, box: BBox)
    ensures s.radius >= 0.0 && EarlyReject(s, box) ==>
      SqDistToBox(s.centre, box) > s.radius * s.radius
  {
    if s.radius >= 0.0 && EarlyReject(s, box) {
      var gx := AxisGap(s.centre.x, box.min.x, box.max.x);
      var gy := AxisGap(s.centre.y, box.min.y, box.max.y);
      var gz := AxisGap(s.centre.z, box.min.z, box.max.z);
      SquareNonNegative(gx);
      SquareNonNegative(gy);
      SquareNonNegative(gz);
      if AxisRejects(gx, s.radius) {
        SquareStrictlyMonotone(s.radius, gx);
      } else if AxisRejects(gy, s.radius) {
        SquareStrictlyMonotone(s.radius, gy);
      } else {
        SquareStrictlyMonotone(s.radius, gz);
      }
    }
  }

  /** Arvo's sphere-box test, as Math/intersect.cc `BSphereBBoxIntersect`
      runs it: the squared distance
      is accumulated axis by axis, returning IReject as soon as one axis
      alone exceeds the radius. */
  method BSphereBBoxIntersect(sphere: BSphere, box: BBox) returns (result: int)
    ensures result == BSphereBBoxOutcome(sphere, box)
  {
    var r := sphere.radius;
    var d := 0.0;
    var reject;
    reject, d := AccumulateAxis(d, sphere.centre.x, box.min.x, box.max.x, r);
    if reject { return IReject; }
    reject, d := AccumulateAxis(d, sphere.centre.y, box.min.y, box.max.y, r);
    if reject { return IReject; }
    reject, d := AccumulateAxis(d, sphere.centre.z, box.min.z, box.max.z, r);
    if reject { return IReject; }
    assert d == SqDistToBox(sphere.centre, box);
    if d > r * r { return IReject; }
    return IIntersect;
  }

  /** One axis of the sphere-box test: the offset of the centre coordinate
      c below lo, or else above hi, either rejects at once (when it exceeds
      the radius r) or adds its square to the running sum d. */
  method AccumulateAxis(d: real, c: real, lo: real, hi: real, r: real) returns (reject: bool, d': real)
    ensures reject <==> AxisRejects(AxisGap(c, lo, hi), r)
    ensures !reject ==> d' == d + Square(AxisGap(c, lo, hi))
  {
    d' := d;
    var aux := c - lo;
    if aux < 0.0 {
      if aux < -r { return true, d'; }
      d' := d' + aux * aux;
    } else {
      aux := c - hi;
      if aux > 0.0 {
        if aux > r { return true, d'; }
        d' := d' + aux * aux;
      }
    }
    return false, d';
  }

  /** A box shrunk to the point c behaves as a sphere of radius 0 at c. */
  lemma DegenerateBoxIsPointSphere(s: BSphere, c: Vector3)
    requires s.radius >= 0.0
    ensures BSphereBBoxOutcome(s, BBox(c, c)) == BSphereBSphereIntersect(s, BSphere(c, 0.0))
  {
    AxisGapOfPoint(s.centre.x, c.x);
    AxisGapOfPoint(s.centre.y, c.y);
    AxisGapOfPoint(s.centre.z, c.z);
    assert SqDistToBox(s.centre, BBox(c, c)) == SqLength(Sub(s.centre, c));
  }

  lemma AxisGapOfPoint(c: real, p: real)
    ensures Square(AxisGap(c, p, p)) == (c - p) * (c - p)
  {
    if c - p < 0.0 {
      assert AxisGap(c, p, p) == -(c - p);
    }
  }

  /** The point of [lo, hi] nearest to c. */
  function Clamp(c: real, lo: real, hi: real): real {
    if c < lo then lo else if c > hi then hi else c
  }

  /** On a well-formed interval the gap is the distance to the clamped
      point, and no point of the interval is nearer. */
  lemma AxisGapIsNearest(c: real, lo: real, hi: real, p: real)
    requires lo <= hi && lo <= p <= hi
    ensures lo <= Clamp(c, lo, hi) <= hi
    ensures Square(AxisGap(c, lo, hi)) == Square(Clamp(c, lo, hi) - c)
    ensures Square(AxisGap(c, lo, hi)) <= Square(p - c)
  {
    var g := AxisGap(c, lo, hi);
    if c < lo {
      assert g == Clamp(c, lo, hi) - c;
      SquareMonotone(g, p - c);
    } else if c > hi {
      assert g == -(Clamp(c, lo, hi) - c);
      SquareMonotone(g, c - p);
      assert Square(c - p) == Square(p - c);
    } else {
      SquareNonNegative(p - c);
    }
  }

  /** Arvo's test is exact for well-formed boxes and non-negative radii:
      it reports IIntersect iff some point of the box lies in the ball. */
  lemma BSphereBBoxSharesPoint(s: BSphere, box: BBox)
    requires ValidBox(box) && s.radius >= 0.0
    ensures BSphereBBoxOutcome(s, box) == IIntersect <==> exists p :: InBox(p, box) && InBall(p, s)
  {
    var q := ClampToBox(s.centre, box);
    ClampIsNearest(s.centre, box, q);
    if BSphereBBoxOutcome(s, box) != IIntersect {
      forall p | InBox(p, box)
        ensures !InBall(p, s)
      {
        ClampIsNearest(s.centre, box, p);
      }
    }
  }

  /** The point of the box nearest to c. */
  function ClampToBox(c: Vector3, box: BBox): Vector3 {
    V(Clamp(c.x, box.min.x, box.max.x), Clamp(c.y, box.min.y, box.max.y), Clamp(c.z, box.min.z, box.max.z))
  }

  /** SqDistToBox is the squared distance from c to the clamped point, and
      no point of the box is nearer. */
  lemma ClampIsNearest(c: Vector3, box: BBox, p: Vector3)
    requires ValidBox(box) && InBox(p, box)
    ensures InBox(ClampToBox(c, box), box)
    ensures SqLength(Sub(ClampToBox(c, box), c)) == SqDistToBox(c, box)
    ensures SqDistToBox(c, box) <= SqLength(Sub(p, c))
  {
    var q := ClampToBox(c, box);
    AxisGapIsNearest(c.x, box.min.x, box.max.x, p.x);
    AxisGapIsNearest(c.y, box.min.y, box.max.y, p.y);
    AxisGapIsNearest(c.z, box.min.z, box.max.z, p.z);
    SqLengthBySquares(Sub(q, c));
    SqLengthBySquares(Sub(p, c));
  }

  lemma SqLengthBySquares(v: Vector3)
    ensures SqLength(v) == Square(v.x) + Square(v.y) + Square(v.z)
  {
  }

  // ---------------------------------------------------------------------
  // Triangle against ray (Moller-Trumbore)

  /** e1 . (d x e2) for the edges e1 = p1 - p0 and e2 = p2 - p0: zero
      exactly when d is parallel to the triangle's plane. */
  function Det(p0: Vector3, p1: Vector3, p2: Vector3, d: Vector3): real {
    Dot(Sub(p1, p0), Cross(d, Sub(p2, p0)))
  }

  /** The point of the ray o + w d with parameter w. */
  function RayPoint(o: Vector3, d: Vector3, w: real): Vector3 {
    Add(o, Scale(w, d))
  }

  /** The point p0 + u (p1 - p0) + v (p2 - p0) of the triangle's plane. */
  function Barycentric(p0: Vector3, p1: Vector3, p2: Vector3, u: real, v: real): Vector3 {
    Add(p0, Add(Scale(u, Sub(p1, p0)), Scale(v, Sub(p2, p0))))
  }

  /** pt lies in the closed triangle p0 p1 p2. */
  ghost predicate InTriangle(pt: Vector3, p0: Vector3, p1: Vector3, p2: Vector3) {
    exists u: real, v: real :: u >= 0.0 && v >= 0.0 && u + v <= 1.0 && pt == Barycentric(p0, p1, p2, u, v)
  }

  /** The parameters (u, v, w) Moller-Trumbore computes for a ray that is
      not parallel to the triangle: with e1 = p1 - p0, e2 = p2 - p0,
      p = d x e2, s = o - p0, q = s x e1 and f = 1 / (e1.p), they are
      f (s.p), f (q.d) and f (e2.q). */
  function CramerParams(p0: Vector3, p1: Vector3, p2: Vector3, o: Vector3, d: Vector3): Vector3
    requires Det(p0, p1, p2, d) != 0.0
  {
    var e1 := Sub(p1, p0);
    var e2 := Sub(p2, p0);
    var p := Cross(d, e2);
    var f := 1.0 / Dot(e1, p);
    var s := Sub(o, p0);
    var q := Cross(s, e1);
    V(f * Dot(s, p), f * Dot(q, d), f * Dot(e2, q))
  }

  /** The triangle-ray test as written: None for IReject, Some(uvw) for
      IIntersect. It rejects when |e1.(d x e2)| is below the distance
      tolerance, and then when u or v lies outside [0, 1]; it checks
      neither u + v <= 1 nor w >= 0. */
  function TriangleRayHit(p0: Vector3, p1: Vector3, p2: Vector3, o: Vector3, d: Vector3): (h: Option<Vector3>)
    ensures Abs(Det(p0, p1, p2, d)) < DistanceEpsilon ==> h == None
    ensures h.Some? ==> 0.0 <= h.value.x <= 1.0 && 0.0 <= h.value.y <= 1.0
  {
    if Abs(Det(p0, p1, p2, d)) < DistanceEpsilon then None
    else
      var uvw := CramerParams(p0, p1, p2, o, d);
      if uvw.x < 0.0 || uvw.x > 1.0 then None
      else if uvw.y < 0.0 || uvw.y > 1.0 then None
      else Some(uvw)
  }

  /** For a ray that is not parallel to the triangle, (u, v, w) solves
      o + w d = p0 + u e1 + v e2 exactly when it is the triple the
      algorithm computes. */
  lemma CramerSolution(p0: Vector3, p1: Vector3, p2: Vector3, o: Vector3, d: Vector3, h: Vector3)
    requires Det(p0, p1, p2, d) != 0.0
    ensures RayPoint(o, d, h.z) == Barycentric(p0, p1, p2, h.x, h.y) <==> h == CramerParams(p0, p1, p2, o, d)
  {
    if RayPoint(o, d, h.z) == Barycentric(p0, p1, p2, h.x, h.y) {
      SolutionIsCramerParams(p0, p1, p2, o, d, h);
    }
    if h == CramerParams(p0, p1, p2, o, d) {
      CramerParamsSolve(p0, p1, p2, o, d);
    }
  }

  /** Uniqueness: a solution of the ray-plane equation is the computed triple. */
  lemma SolutionIsCramerParams(p0: Vector3, p1: Vector3, p2: Vector3, o: Vector3, d: Vector3, h: Vector3)
    requires Det(p0, p1, p2, d) != 0.0
    requires RayPoint(o, d, h.z) == Barycentric(p0, p1, p2, h.x, h.y)
    ensures h == CramerParams(p0, p1, p2, o, d)
  {
    var e1, e2, s := Sub(p1, p0), Sub(p2, p0), Sub(o, p0);
    var a := Det(p0, p1, p2, d);
    RaySolutionIsCombo(p0, p1, p2, o, d, h.x, h.y, h.z);
    assert s == Combo(e1, e2, d, h.x, h.y, h.z);
    SolveU(e1, e2, d, h.x, h.y, h.z);
    SolveV(e1, e2, d, h.x, h.y, h.z);
    SolveW(e1, e2, d, h.x, h.y, h.z);
    CramerParamsValues(p0, p1, p2, o, d, a, h.x, h.y, h.z);
    assert h == V(h.x, h.y, h.z);
  }

  /** Existence: the computed triple solves the ray-plane equation. */
  lemma CramerParamsSolve(p0: Vector3, p1: Vector3, p2: Vector3, o: Vector3, d: Vector3)
    requires Det(p0, p1, p2, d) != 0.0
    ensures var h := CramerParams(p0, p1, p2, o, d);
      RayPoint(o, d, h.z) == Barycentric(p0, p1, p2, h.x, h.y)
  {
    var e1, e2, s := Sub(p1, p0), Sub(p2, p0), Sub(o, p0);
    var p := Cross(d, e2);
    var q := Cross(s, e1);
    var a, A, B, C := Dot(e1, p), Dot(s, p), Dot(q, d), Dot(e2, q);
    var u, v, w := 1.0 / a * A, 1.0 / a * B, 1.0 / a * C;
    CramerParamsOf(p0, p1, p2, o, d, a, A, B, C);
    assert CramerParams(p0, p1, p2, o, d) == V(u, v, w);
    CramerIdentity(s, e1, e2, d);
    CramerCoordinates(s, e1, e2, d, a, A, B, C);
    assert s == Combo(e1, e2, d, u, v, w);
    RaySolutionIsCombo(p0, p1, p2, o, d, u, v, w);
    assert RayPoint(o, d, w) == Barycentric(p0, p1, p2, u, v);
  }

  /** Dividing a s = A e1 + B e2 - C d by a != 0 gives s in the basis
      e1, e2, d, with coordinates A / a, B / a and C / a. */
  lemma CramerCoordinates(s: Vector3, e1: Vector3, e2: Vector3, d: Vector3, a: real, A: real, B: real, C: real)
    requires a != 0.0
    requires a * s.x == A * e1.x + B * e2.x - C * d.x
    requires a * s.y == A * e1.y + B * e2.y - C * d.y
    requires a * s.z == A * e1.z + B * e2.z - C * d.z
    ensures s == Combo(e1, e2, d, 1.0 / a * A, 1.0 / a * B, 1.0 / a * C)
  {
    ScaleDown(a, s.x, A, B, C, e1.x, e2.x, d.x);
    ScaleDown(a, s.y, A, B, C, e1.y, e2.y, d.y);
    ScaleDown(a, s.z, A, B, C, e1.z, e2.z, d.z);
    ComboCoordinates(e1, e2, d, 1.0 / a * A, 1.0 / a * B, 1.0 / a * C);
    assert s == V(s.x, s.y, s.z);
  }

  /** When the triple products are a and u a, v a, w a, the computed
      triple is (u, v, w). */
  lemma CramerParamsValues(p0: Vector3, p1: Vector3, p2: Vector3, o: Vector3, d: Vector3,
                           a: real, u: real, v: real, w: real)
    requires a != 0.0 && Det(p0, p1, p2, d) == a
    requires Dot(Sub(o, p0), Cross(d, Sub(p2, p0))) == u * a
    requires Dot(Cross(Sub(o, p0), Sub(p1, p0)), d) == v * a
    requires Dot(Sub(p2, p0), Cross(Sub(o, p0), Sub(p1, p0))) == w * a
    ensures CramerParams(p0, p1, p2, o, d) == V(u, v, w)
  {
    CramerParamsOf(p0, p1, p2, o, d, a, u * a, v * a, w * a);
    DivideOut(u, a);
    DivideOut(v, a);
    DivideOut(w, a);
  }

  /** CramerParams in terms of the values of its four triple products. */
  lemma CramerParamsOf(p0: Vector3, p1: Vector3, p2: Vector3, o: Vector3, d: Vector3, a: real, A: real, B: real, C: real)
    requires a != 0.0 && Det(p0, p1, p2, d) == a
    requires Dot(Sub(o, p0), Cross(d, Sub(p2, p0))) == A
    requires Dot(Cross(Sub(o, p0), Sub(p1, p0)), d) == B
    requires Dot(Sub(p2, p0), Cross(Sub(o, p0), Sub(p1, p0))) == C
    ensures CramerParams(p0, p1, p2, o, d) == V(1.0 / a * A, 1.0 / a * B, 1.0 / a * C)
  {
  }

  /** o + w d = p0 + u e1 + v e2 iff o - p0 = u e1 + v e2 - w d. */
  lemma RaySolutionIsCombo(p0: Vector3, p1: Vector3, p2: Vector3, o: Vector3, d: Vector3, u: real, v: real, w: real)
    ensures RayPoint(o, d, w) == Barycentric(p0, p1, p2, u, v) <==>
      Sub(o, p0) == Combo(Sub(p1, p0), Sub(p2, p0), d, u, v, w)
  {
    ComboCoordinates(Sub(p1, p0), Sub(p2, p0), d, u, v, w);
  }

  /** The coordinates of u e1 + v e2 - w d. */
  lemma ComboCoordinates(e1: Vector3, e2: Vector3, d: Vector3, u: real, v: real, w: real)
    ensures Combo(e1, e2, d, u, v, w) ==
      V(u * e1.x + v * e2.x - w * d.x, u * e1.y + v * e2.y - w * d.y, u * e1.z + v * e2.z - w * d.z)
  {
    assert (-w) * d.x == -(w * d.x) && (-w) * d.y == -(w * d.y) && (-w) * d.z == -(w * d.z);
  }

  /** u e1 + v e2 - w d. */
  function Combo(e1: Vector3, e2: Vector3, d: Vector3, u: real, v: real, w: real): Vector3 {
    Add(Add(Scale(u, e1), Scale(v, e2)), Scale(-w, d))
  }

  /** a s = (s.p) e1 + (q.d) e2 - (e2.q) d, with p = d x e2, q = s x e1 and
      a = e1.p: the vector s in the basis e1, e2, d (Cramer's rule). */
  lemma CramerIdentity(s: Vector3, e1: Vector3, e2: Vector3, d: Vector3)
    ensures var p := Cross(d, e2); var q := Cross(s, e1); var a := Dot(e1, p);
      && a * s.x == Dot(s, p) * e1.x + Dot(q, d) * e2.x - Dot(e2, q) * d.x
      && a * s.y == Dot(s, p) * e1.y + Dot(q, d) * e2.y - Dot(e2, q) * d.y
      && a * s.z == Dot(s, p) * e1.z + Dot(q, d) * e2.z - Dot(e2, q) * d.z
  {
  }

  /** The triple products recover u, v and w from u e1 + v e2 - w d, each
      multiplied by a = e1.(d x e2). */
  lemma SolveU(e1: Vector3, e2: Vector3, d: Vector3, u: real, v: real, w: real)
    ensures Dot(Combo(e1, e2, d, u, v, w), Cross(d, e2)) == u * Dot(e1, Cross(d, e2))
  {
    var p := Cross(d, e2);
    calc {
      Dot(Combo(e1, e2, d, u, v, w), p);
      { DotCombo(e1, e2, d, u, v, w, p); }
      u * Dot(e1, p) + v * Dot(e2, p) - w * Dot(d, p);
      { CrossOrthogonal(d, e2); TripleSwap(e2, e2, d); }
      u * Dot(e1, p) + v * 0.0 - w * 0.0;
    }
  }

  /** The dot product is linear in its left argument. */
  lemma DotCombo(e1: Vector3, e2: Vector3, d: Vector3, u: real, v: real, w: real, c: Vector3)
    ensures Dot(Combo(e1, e2, d, u, v, w), c) == u * Dot(e1, c) + v * Dot(e2, c) - w * Dot(d, c)
  {
    DotAddLeft(Add(Scale(u, e1), Scale(v, e2)), Scale(-w, d), c);
    DotAddLeft(Scale(u, e1), Scale(v, e2), c);
    DotScaleLeft(u, e1, c);
    DotScaleLeft(v, e2, c);
    DotScaleLeft(-w, d, c);
  }

  lemma DotAddLeft(a: Vector3, b: Vector3, c: Vector3)
    ensures Dot(Add(a, b), c) == Dot(a, c) + Dot(b, c)
  {
  }

  lemma SolveV(e1: Vector3, e2: Vector3, d: Vector3, u: real, v: real, w: real)
    ensures Dot(Cross(Combo(e1, e2, d, u, v, w), e1), d) == v * Dot(e1, Cross(d, e2))
  {
    var x, y := Cross(e2, e1), Cross(d, e1);
    calc {
      Dot(Cross(Combo(e1, e2, d, u, v, w), e1), d);
      { CrossCombo(e1, e2, d, u, v, w); }
      Dot(Add(Scale(v, x), Scale(-w, y)), d);
      { DotPair(x, y, d, v, w); }
      v * Dot(x, d) - w * Dot(y, d);
      { TripleCyclic(e1, e2, d); CrossOrthogonal(d, e1); }
      v * Dot(e1, Cross(d, e2)) - w * 0.0;
    }
  }

  lemma SolveW(e1: Vector3, e2: Vector3, d: Vector3, u: real, v: real, w: real)
    ensures Dot(e2, Cross(Combo(e1, e2, d, u, v, w), e1)) == w * Dot(e1, Cross(d, e2))
  {
    var x, y := Cross(e2, e1), Cross(d, e1);
    calc {
      Dot(e2, Cross(Combo(e1, e2, d, u, v, w), e1));
      { CrossCombo(e1, e2, d, u, v, w); }
      Dot(e2, Add(Scale(v, x), Scale(-w, y)));
      { DotPair(x, y, e2, v, w); }
      v * Dot(e2, x) - w * Dot(e2, y);
      { TripleSwap(e1, e2, d); CrossOrthogonal(e2, e1); }
      v * 0.0 - w * -Dot(e1, Cross(d, e2));
    }
  }

  /** The cross product with e1 removes the e1 component of a combination. */
  lemma CrossCombo(e1: Vector3, e2: Vector3, d: Vector3, u: real, v: real, w: real)
    ensures Cross(Combo(e1, e2, d, u, v, w), e1) == Add(Scale(v, Cross(e2, e1)), Scale(-w, Cross(d, e1)))
  {
    calc {
      Cross(Combo(e1, e2, d, u, v, w), e1);
      { CrossAddLeft(Add(Scale(u, e1), Scale(v, e2)), Scale(-w, d), e1);
        CrossAddLeft(Scale(u, e1), Scale(v, e2), e1); }
      Add(Add(Cross(Scale(u, e1), e1), Cross(Scale(v, e2), e1)), Cross(Scale(-w, d), e1));
      { CrossScaleLeft(u, e1, e1); CrossScaleLeft(v, e2, e1); CrossScaleLeft(-w, d, e1); CrossSelf(e1); }
      Add(Add(Scale(u, Zero), Scale(v, Cross(e2, e1))), Scale(-w, Cross(d, e1)));
      { assert Scale(u, Zero) == Zero; }
      Add(Scale(v, Cross(e2, e1)), Scale(-w, Cross(d, e1)));
    }
  }

  lemma CrossAddLeft(a: Vector3, b: Vector3, c: Vector3)
    ensures Cross(Add(a, b), c) == Add(Cross(a, c), Cross(b, c))
  {
  }

  lemma CrossScaleLeft(k: real, a: Vector3, c: Vector3)
    ensures Cross(Scale(k, a), c) == Scale(k, Cross(a, c))
  {
    ScaledDifference(k, a.y, c.z, a.z, c.y);
    ScaledDifference(k, a.z, c.x, a.x, c.z);
    ScaledDifference(k, a.x, c.y, a.y, c.x);
    assert Cross(Scale(k, a), c).x == Scale(k, Cross(a, c)).x;
    assert Cross(Scale(k, a), c).y == Scale(k, Cross(a, c)).y;
    assert Cross(Scale(k, a), c).z == Scale(k, Cross(a, c)).z;
  }

  lemma ScaledDifference(k: real, a1: real, c1: real, a2: real, c2: real)
    ensures (k * a1) * c1 - (k * a2) * c2 == k * (a1 * c1 - a2 * c2)
  {
    assert (k * a1) * c1 == k * (a1 * c1);
    assert (k * a2) * c2 == k * (a2 * c2);
  }

  lemma CrossSelf(a: Vector3)
    ensures Cross(a, a) == Zero
  {
  }

  lemma DotPair(x: Vector3, y: Vector3, c: Vector3, v: real, w: real)
    ensures Dot(Add(Scale(v, x), Scale(-w, y)), c) == v * Dot(x, c) - w * Dot(y, c)
    ensures Dot(c, Add(Scale(v, x), Scale(-w, y))) == v * Dot(c, x) - w * Dot(c, y)
  {
  }

  lemma TripleCyclic(e1: Vector3, e2: Vector3, d: Vector3)
    ensures Dot(Cross(e2, e1), d) == Dot(e1, Cross(d, e2))
  {
  }

  lemma TripleSwap(e1: Vector3, e2: Vector3, d: Vector3)
    ensures Dot(e2, Cross(d, e1)) == -Dot(e1, Cross(d, e2))
  {
  }

  lemma CrossOrthogonal(a: Vector3, b: Vector3)
    ensures Dot(Cross(a, b), a) == 0.0 && Dot(b, Cross(a, b)) == 0.0
  {
  }

  /** (1 / a) (x a) == x for a != 0. */
  lemma DivideOut(x: real, a: real)
    requires a != 0.0
    ensures (1.0 / a) * (x * a) == x
  {
  }

  /** Dividing a s = A e + B f - C g by a != 0. */
  lemma ScaleDown(a: real, s: real, A: real, B: real, C: real, e: real, f: real, g: real)
    requires a != 0.0 && a * s == A * e + B * f - C * g
    ensures s == (1.0 / a * A) * e + (1.0 / a * B) * f - (1.0 / a * C) * g
  {
    assert s == (1.0 / a) * (a * s);
  }

  /** Outside the parallel case, the test hits with (u, v, w) iff u and v
      lie in [0, 1] and the ray point with parameter w is the point of the
      triangle's plane with coordinates u, v: a hit in the parallelogram
      spanned by the two edges, in front of or behind the origin. */
  lemma TriangleRayHitMeaning(p0: Vector3, p1: Vector3, p2: Vector3, o: Vector3, d: Vector3, h: Vector3)
    requires Abs(Det(p0, p1, p2, d)) >= DistanceEpsilon
    ensures TriangleRayHit(p0, p1, p2, o, d) == Some(h) <==>
      && 0.0 <= h.x <= 1.0 && 0.0 <= h.y <= 1.0
      && RayPoint(o, d, h.z) == Barycentric(p0, p1, p2, h.x, h.y)
  {
    CramerSolution(p0, p1, p2, o, d, h);
  }

  /** A ray whose direction is orthogonal to the triangle's normal
      (parallel to its plane) is always rejected. */
  lemma ParallelRayRejected(p0: Vector3, p1: Vector3, p2: Vector3, o: Vector3, d: Vector3)
    requires Dot(d, Cross(Sub(p1, p0), Sub(p2, p0))) == 0.0
    ensures TriangleRayHit(p0, p1, p2, o, d) == None
  {
    TripleProductSwap(Sub(p1, p0), d, Sub(p2, p0));
  }

  /** e1.(d x e2) == -(d.(e1 x e2)). */
  lemma TripleProductSwap(e1: Vector3, d: Vector3, e2: Vector3)
    ensures Dot(e1, Cross(d, e2)) == -Dot(d, Cross(e1, e2))
  {
  }

  /** The test accepts hits outside the triangle: with edges k along x
      and 1 along y (k above the tolerance, so the ray is not treated as
      parallel), a ray straight down through (0.9 k, 0.9) is reported as a
      hit with u = v = 0.9, a point of the parallelogram that is not in
      the triangle. */
  lemma TriangleRayHitOutsideTriangle(k: real)
    requires k > DistanceEpsilon
    ensures var p0, p1, p2 := Zero, V(k, 0.0, 0.0), V(0.0, 1.0, 0.0);
      var o, d := V(0.9 * k, 0.9, 1.0), V(0.0, 0.0, -1.0);
      && TriangleRayHit(p0, p1, p2, o, d) == Some(V(0.9, 0.9, 1.0))
      && !InTriangle(RayPoint(o, d, 1.0), p0, p1, p2)
  {
    var p0, p1, p2 := Zero, V(k, 0.0, 0.0), V(0.0, 1.0, 0.0);
    var o, d := V(0.9 * k, 0.9, 1.0), V(0.0, 0.0, -1.0);
    ExampleHit(k);
    assert RayPoint(o, d, 1.0) == V(0.9 * k, 0.9, 0.0);
    forall u: real, v: real | Barycentric(p0, p1, p2, u, v) == V(0.9 * k, 0.9, 0.0)
      ensures u + v > 1.0
    {
      ExampleCoordinates(k, u, v);
    }
  }

  lemma ExampleHit(k: real)
    requires k > DistanceEpsilon
    ensures TriangleRayHit(Zero, V(k, 0.0, 0.0), V(0.0, 1.0, 0.0), V(0.9 * k, 0.9, 1.0), V(0.0, 0.0, -1.0))
         == Some(V(0.9, 0.9, 1.0))
  {
    ExampleParams(k);
  }

  lemma ExampleParams(k: real)
    requires k > 0.0
    ensures Det(Zero, V(k, 0.0, 0.0), V(0.0, 1.0, 0.0), V(0.0, 0.0, -1.0)) == k
    ensures CramerParams(Zero, V(k, 0.0, 0.0), V(0.0, 1.0, 0.0), V(0.9 * k, 0.9, 1.0), V(0.0, 0.0, -1.0))
         == V(0.9, 0.9, 1.0)
  {
    var e1, e2 := V(k, 0.0, 0.0), V(0.0, 1.0, 0.0);
    var o, d := V(0.9 * k, 0.9, 1.0), V(0.0, 0.0, -1.0);
    assert Sub(e1, Zero) == e1 && Sub(e2, Zero) == e2 && Sub(o, Zero) == o;
    var p := Cross(d, e2);
    assert p == V(1.0, 0.0, 0.0);
    var q := Cross(o, e1);
    assert q == V(0.0, k, -0.9 * k);
    assert Dot(e1, p) == k;
    assert Dot(o, p) == 0.9 * k;
    assert Dot(q, d) == 0.9 * k;
    assert Dot(e2, q) == 1.0 * k;
    CramerParamsValues(Zero, e1, e2, o, d, k, 0.9, 0.9, 1.0);
  }

  lemma ExampleCoordinates(k: real, u: real, v: real)
    requires k > 0.0
    requires Barycentric(Zero, V(k, 0.0, 0.0), V(0.0, 1.0, 0.0), u, v) == V(0.9 * k, 0.9, 0.0)
    ensures u == 0.9 && v == 0.9
  {
    assert Sub(V(k, 0.0, 0.0), Zero) == V(k, 0.0, 0.0);
    assert Sub(V(0.0, 1.0, 0.0), Zero) == V(0.0, 1.0, 0.0);
    assert Barycentric(Zero, V(k, 0.0, 0.0), V(0.0, 1.0, 0.0), u, v).x == u * k;
    assert Barycentric(Zero, V(k, 0.0, 0.0), V(0.0, 1.0, 0.0), u, v).y == v;
    assert u * k == 0.9 * k;
    CancelPositive(u, 0.9, k);
  }

  /** The triangle-ray test with the edge condition it evidently intends:
      v < 0 or u + v > 1 rejects, instead of v outside [0, 1]. */
  function TriangleRayHitInside(p0: Vector3, p1: Vector3, p2: Vector3, o: Vector3, d: Vector3): (h: Option<Vector3>)
    ensures Abs(Det(p0, p1, p2, d)) < DistanceEpsilon ==> h == None
  {
    if Abs(Det(p0, p1, p2, d)) < DistanceEpsilon then None
    else
      var uvw := CramerParams(p0, p1, p2, o, d);
      if uvw.x < 0.0 || uvw.x > 1.0 then None
      else if uvw.y < 0.0 || uvw.x + uvw.y > 1.0 then None
      else Some(uvw)
  }

  /** The corrected test hits exactly the triangle: outside the parallel
      case it returns (u, v, w) iff the ray point with parameter w is the
      point of the closed triangle with coordinates u, v. */
  lemma TriangleRayHitInsideMeaning(p0: Vector3, p1: Vector3, p2: Vector3, o: Vector3, d: Vector3, h: Vector3)
    requires Abs(Det(p0, p1, p2, d)) >= DistanceEpsilon
    ensures TriangleRayHitInside(p0, p1, p2, o, d) == Some(h) <==>
      && h.x >= 0.0 && h.y >= 0.0 && h.x + h.y <= 1.0
      && RayPoint(o, d, h.z) == Barycentric(p0, p1, p2, h.x, h.y)
  {
    CramerSolution(p0, p1, p2, o, d, h);
  }

  /** Every hit of the corrected test lies in the triangle. */
  lemma TriangleRayHitInsideIsInTriangle(p0: Vector3, p1: Vector3, p2: Vector3, o: Vector3, d: Vector3)
    requires TriangleRayHitInside(p0, p1, p2, o, d).Some?
    ensures InTriangle(RayPoint(o, d, TriangleRayHitInside(p0, p1, p2, o, d).value.z), p0, p1, p2)
  {
    var h := TriangleRayHitInside(p0, p1, p2, o, d).value;
    TriangleRayHitInsideMeaning(p0, p1, p2, o, d, h);
    assert Barycentric(p0, p1, p2, h.x, h.y) == RayPoint(o, d, h.z);
  }

  /** `IntersectTriangleRay` of Math/intersect.cc: `uvw` is the caller's
      vector, returned as `uvwOut`; it is overwritten only on a hit. */
  method IntersectTriangleRay(p0: Vector3, p1: Vector3, p2: Vector3, l: Line, uvw: Vector3)
    returns (result: int, uvwOut: Vector3)
    ensures result == IIntersect || result == IReject
    ensures result == IIntersect <==> TriangleRayHit(p0, p1, p2, l.o, l.d).Some?
    ensures result == IIntersect ==> uvwOut == TriangleRayHit(p0, p1, p2, l.o, l.d).value
    ensures result == IReject ==> uvwOut == uvw
  {
    uvwOut := uvw;
    var e1 := Sub(p1, p0);
    var e2 := Sub(p2, p0);
    var p := Cross(l.d, e2);
    var a := Dot(e1, p);
    assert a == Det(p0, p1, p2, l.d);
    if Abs(a) < DistanceEpsilon { return IReject, uvwOut; }
    ghost var h := CramerParams(p0, p1, p2, l.o, l.d);
    var f := 1.0 / a;
    var s := Sub(l.o, p0);
    var lu := f * Dot(s, p);
    assert lu == h.x;
    if lu < 0.0 || lu > 1.0 { return IReject, uvwOut; }
    var q := Cross(s, e1);
    var lv := f * Dot(q, l.d);
    assert lv == h.y;
    if lv < 0.0 || lv > 1.0 { return IReject, uvwOut; }
    uvwOut := V(lu, lv, f * Dot(e2, q));
    assert uvwOut == h;
    return IIntersect, uvwOut;
  }

  // ---------------------------------------------------------------------
  // Names of the outcomes

  /** The printable name of an outcome code; "IERROR" for any other value. */
  function IntersectString(code: int): (name: string)
    ensures code == IIntersect ==> name == "IINTERSECT"
    ensures code == IReject ==> name == "IREJECT"
    ensures code == -IReject ==> name == "-IREJECT"
    ensures code != IIntersect && code != IReject && code != -IReject ==> name == "IERROR"
  {
    if code == IIntersect then "IINTERSECT"
    else if code == IReject then "IREJECT"
    else if code == -IReject then "-IREJECT"
    else "IERROR"
  }

  /** Distinct outcomes have distinct names, so the name determines the code. */
  lemma IntersectStringInjective(c1: int, c2: int)
    requires IntersectString(c1) != "IERROR"
    requires IntersectString(c1) == IntersectString(c2)
    ensures c1 == c2
  {
  }

  // ---------------------------------------------------------------------
  // Arithmetic helpers

  lemma SquareNonNegative(r: real)
    ensures Square(r) >= 0.0
  {
    if r < 0.0 {
      assert r * r == (-r) * (-r);
    }
  }

  lemma MulNonNegative(a: real, b: real)
    requires a >= 0.0 && b >= 0.0
    ensures a * b >= 0.0
  {
  }

  /** c >= 0 and x <= y give c x <= c y. */
  lemma MulLeft(c: real, x: real, y: real)
    requires c >= 0.0 && x <= y
    ensures c * x <= c * y
  {
    MulNonNegative(c, y - x);
  }

  lemma MulMonotone(x1: real, y1: real, x2: real, y2: real)
    requires 0.0 <= x1 <= y1 && 0.0 <= x2 <= y2
    ensures x1 * x2 <= y1 * y2
  {
    MulLeft(x1, x2, y2);
    MulLeft(y2, x1, y1);
  }

  lemma SquareMonotone(x: real, y: real)
    requires 0.0 <= x <= y
    ensures Square(x) <= Square(y)
  {
    MulMonotone(x, y, x, y);
  }

  /** u k == c k with k > 0 gives u == c. */
  lemma CancelPositive(u: real, c: real, k: real)
    requires k > 0.0 && u * k == c * k
    ensures u == c
  {
    if u < c {
      MulPositive(c - u, k);
    } else if u > c {
      MulPositive(u - c, k);
    }
  }

  lemma SqLengthSubSwap(a: Vector3, b: Vector3)
    ensures SqLength(Sub(a, b)) == SqLength(Sub(b, a))
  {
    assert Sub(b, a) == Scale(-1.0, Sub(a, b));
    SqLengthScale(-1.0, Sub(a, b));
  }

  lemma MulPositive(a: real, b: real)
    requires a > 0.0 && b > 0.0
    ensures a * b > 0.0
  {
  }

  lemma SquareStrictlyMonotone(r: real, g: real)
    requires 0.0 <= r < g
    ensures r * r < Square(g)
  {
    MulPositive(g - r, g + r);
  }
}

/** Three-component vectors over the reals, the value type every geometric
    routine of the engine works on, and the two tolerances it compares against. */
module Vectors {

  /** A point or direction in space. */
  datatype Vector3 = V(x: real, y: real, z: real)

  /** A strictly positive tolerance; its exact value is a tuning constant. */
  type PositiveReal = r: real | r > 0.0 witness 1.0

  /** Tolerance for distances and near-parallel tests (Constants::distance_epsilon). */
  const DistanceEpsilon: PositiveReal

  /** Tolerance for vector magnitudes (Vector3::epsilon). */
  const VectorEpsilon: PositiveReal

  const Zero: Vector3 := V(0.0, 0.0, 0.0)
  const UnitY: Vector3 := V(0.0, 1.0, 0.0)

  function Add(a: Vector3, b: Vector3): Vector3 {
    V(a.x + b.x, a.y + b.y, a.z + b.z)
  }

  function Sub(a: Vector3, b: Vector3): Vector3 {
    V(a.x - b.x, a.y - b.y, a.z - b.z)
  }

  /** Scalar multiple k * v. */
  function Scale(k: real, v: Vector3): Vector3 {
    V(k * v.x, k * v.y, k * v.z)
  }

  function Dot(a: Vector3, b: Vector3): real {
    a.x * b.x + a.y * b.y + a.z * b.z
  }

  function Cross(a: Vector3, b: Vector3): Vector3 {
    V(a.y * b.z - a.z * b.y, a.z * b.x - a.x * b.z, a.x * b.y - a.y * b.x)
  }

  /** Squared Euclidean length. */
  function SqLength(v: Vector3): real {
    Dot(v, v)
  }

  /** Component k of v, for k in 0..2 (`Vector3::operator[]`). */
  function Coord(v: Vector3, k: nat): real
    requires k < 3
  {
    if k == 0 then v.x else if k == 1 then v.y else v.z
  }

  function Abs(r: real): real {
    if r < 0.0 then -r else r
  }

  lemma SqLengthNonNegative(v: Vector3)
    ensures SqLength(v) >= 0.0
  {
    assert v.x * v.x >= 0.0 && v.y * v.y >= 0.0 && v.z * v.z >= 0.0;
  }

  lemma DotScaleLeft(k: real, a: Vector3, b: Vector3)
    ensures Dot(Scale(k, a), b) == k * Dot(a, b)
  {
    assert k * a.x * b.x + k * a.y * b.y + k * a.z * b.z == k * (a.x * b.x + a.y * b.y + a.z * b.z);
  }

  lemma SqLengthScale(k: real, v: Vector3)
    ensures SqLength(Scale(k, v)) == k * k * SqLength(v)
  {
    calc {
      SqLength(Scale(k, v));
      (k * v.x) * (k * v.x) + (k * v.y) * (k * v.y) + (k * v.z) * (k * v.z);
      k * k * (v.x * v.x + v.y * v.y + v.z * v.z);
    }
  }

  lemma SqLengthSubSelf(a: Vector3)
    ensures SqLength(Sub(a, a)) == 0.0
  {
    assert Sub(a, a) == Zero;
  }

  lemma PositiveSquare(r: real)
    requires r > 0.0
    ensures r * r > 0.0
  {
  }

  lemma DotScaleRight(k: real, a: Vector3, b: Vector3)
    ensures Dot(a, Scale(k, b)) == k * Dot(a, b)
  {
    assert a.x * (k * b.x) + a.y * (k * b.y) + a.z * (k * b.z) == k * (a.x * b.x + a.y * b.y + a.z * b.z);
  }

  lemma DotSubLeft(a: Vector3, b: Vector3, c: Vector3)
    ensures Dot(Sub(a, b), c) == Dot(a, c) - Dot(b, c)
  {
  }

  /** |a + b|^2 = |a|^2 + 2 a.b + |b|^2. */
  lemma Pythagoras(a: Vector3, b: Vector3)
    ensures SqLength(Add(a, b)) == SqLength(a) + 2.0 * Dot(b, a) + SqLength(b)
  {
  }
}

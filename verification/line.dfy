/** The parametric line P(u) = O + u * d of Math/line.cc. */
module Lines {
  import opened Vectors

  class Line {
    /** Origin O (m_O). */
    var o: Vector3
    /** Direction d (m_d); unit length once set by SetFromAtoB. */
    var d: Vector3

    /** The default line: through the origin along the y axis. */
    constructor ()
      ensures o == Zero && d == UnitY
    {
      o := Zero;
      d := UnitY;
    }

    /** A line with the given origin and direction, stored as given. */
    constructor FromOriginDirection(origin: Vector3, direction: Vector3)
      ensures o == origin && d == direction
    {
      o := origin;
      d := direction;
    }

    /** The copy constructor. */
    constructor Copy(line: Line)
      ensures o == line.o && d == line.d
    {
      o := line.o;
      d := line.d;
    }

    /** Assignment: copies origin and direction of `line`; assigning a line
        to itself leaves it as it was. */
    method Assign(line: Line)
      modifies this
      ensures o == old(line.o) && d == old(line.d)
      ensures line == this ==> unchanged(this)
    {
      if line != this {
        o := line.o;
        d := line.d;
      }
    }

    /** Makes this the line through `a` towards `b`, with unit direction.
        `norm` is the length of b - a (the value normalize() returns); the
        line is only defined when a and b are farther apart than the
        distance tolerance. */
    method SetFromAtoB(a: Vector3, b: Vector3, norm: real)
      requires norm * norm == SqLength(Sub(b, a))
      requires norm > DistanceEpsilon
      modifies this
      ensures o == a
      ensures Scale(norm, d) == Sub(b, a)
      ensures SqLength(d) == 1.0
    {
      o := a;
      d := Sub(b, a);
      var k := 1.0 / norm;
      SqLengthScale(k, d);
      assert k * k * (norm * norm) == 1.0;
      d := Scale(k, d);
    }

    /** The point with parameter u: its offset from the origin is u times
        the direction. */
    function At(u: real): (p: Vector3)
      reads this
      ensures Sub(p, o) == Scale(u, d)
    {
      Add(o, Scale(u, d))
    }

    /** The parameter of the point of the line nearest to p: the r with
        r (d.d) = d.(p - O), defined only for a direction that is not
        (nearly) zero. */
    function ParamDistance(p: Vector3): (r: real)
      reads this
      requires SqLength(d) > VectorEpsilon
      ensures r * Dot(d, d) == Dot(d, Sub(p, o))
    {
      Dot(d, Sub(p, o)) / Dot(d, d)
    }

    /** The square of the distance from p to the line (distance() is its
        square root); it is never negative. */
    function SqDistance(p: Vector3): (r: real)
      reads this
      requires SqLength(d) > VectorEpsilon
      ensures r >= 0.0
    {
      SqLengthNonNegative(Sub(p, At(ParamDistance(p))));
      SqLength(Sub(p, At(ParamDistance(p))))
    }
  }

  /** The line passes through its origin at parameter 0. */
  lemma AtZero(l: Line)
    ensures l.At(0.0) == l.o
  {
  }

  /** Projecting the origin gives parameter 0. */
  lemma ParamDistanceOfOrigin(l: Line)
    requires SqLength(l.d) > VectorEpsilon
    ensures l.ParamDistance(l.o) == 0.0
  {
    assert Sub(l.o, l.o) == Zero;
  }

  /** Projection inverts evaluation: the point at parameter u projects back to u. */
  lemma {:induction false} ParamDistanceOfAt(l: Line, u: real)
    requires SqLength(l.d) > VectorEpsilon
    ensures l.ParamDistance(l.At(u)) == u
  {
    assert Sub(l.At(u), l.o) == Scale(u, l.d);
    calc {
      Dot(l.d, Scale(u, l.d));
      { DotScaleRight(u, l.d, l.d); }
      u * Dot(l.d, l.d);
    }
  }

  /** The offset from p to its projection is orthogonal to the direction. */
  lemma ProjectionOrthogonal(l: Line, p: Vector3)
    requires SqLength(l.d) > VectorEpsilon
    ensures Dot(Sub(p, l.At(l.ParamDistance(p))), l.d) == 0.0
  {
    var u0 := l.ParamDistance(p);
    SubAddSplit(p, l.o, Scale(u0, l.d));
    ResidualOrthogonal(Sub(p, l.o), l.d, u0);
  }

  /** p - (O + v) is (p - O) - v. */
  lemma SubAddSplit(p: Vector3, o: Vector3, v: Vector3)
    ensures Sub(p, Add(o, v)) == Sub(Sub(p, o), v)
  {
  }

  /** If u0 solves u0 (d.d) = d.w, then w - u0 d is orthogonal to d. */
  lemma ResidualOrthogonal(w: Vector3, d: Vector3, u0: real)
    requires u0 * Dot(d, d) == Dot(d, w)
    ensures Dot(Sub(w, Scale(u0, d)), d) == 0.0
  {
    calc {
      Dot(Sub(w, Scale(u0, d)), d);
      { DotSubLeft(w, Scale(u0, d), d); }
      Dot(w, d) - Dot(Scale(u0, d), d);
      { DotScaleLeft(u0, d, d); }
      Dot(w, d) - u0 * Dot(d, d);
      { assert Dot(w, d) == Dot(d, w); }
      0.0;
    }
  }

  /** The projection is the nearest point of the line: no point of the
      line is closer to p than the point at ParamDistance(p). */
  lemma ProjectionNearest(l: Line, p: Vector3, u: real)
    requires SqLength(l.d) > VectorEpsilon
    ensures l.SqDistance(p) <= SqLength(Sub(p, l.At(u)))
  {
    ProjectionOrthogonal(l, p);
    OrthogonalFootNearest(l.o, l.d, p, l.ParamDistance(p), u);
  }

  /** If the offset from p to O + u0 d is orthogonal to d, then O + u0 d is
      at least as close to p as any O + u d. */
  lemma OrthogonalFootNearest(o: Vector3, d: Vector3, p: Vector3, u0: real, u: real)
    requires Dot(Sub(p, Add(o, Scale(u0, d))), d) == 0.0
    ensures SqLength(Sub(p, Add(o, Scale(u0, d)))) <= SqLength(Sub(p, Add(o, Scale(u, d))))
  {
    OffsetSplit(o, d, p, u0, u);
    OrthogonalStepNoCloser(Sub(p, Add(o, Scale(u0, d))), d, u0 - u);
  }

  /** Adding a multiple of d to an offset r orthogonal to d never makes it
      shorter. */
  lemma OrthogonalStepNoCloser(r: Vector3, d: Vector3, t: real)
    requires Dot(r, d) == 0.0
    ensures SqLength(r) <= SqLength(Add(r, Scale(t, d)))
  {
    var e := Scale(t, d);
    Pythagoras(r, e);
    DotScaleLeft(t, d, r);
    assert Dot(d, r) == Dot(r, d);
    SqLengthNonNegative(e);
  }

  /** The offset from p to O + u d is the offset to O + u0 d plus
      (u0 - u) d. */
  lemma OffsetSplit(o: Vector3, d: Vector3, p: Vector3, u0: real, u: real)
    ensures Sub(p, Add(o, Scale(u, d))) == Add(Sub(p, Add(o, Scale(u0, d))), Scale(u0 - u, d))
  {
    assert (u0 - u) * d.x == u0 * d.x - u * d.x;
    assert (u0 - u) * d.y == u0 * d.y - u * d.y;
    assert (u0 - u) * d.z == u0 * d.z - u * d.z;
  }

  /** Every point of the line is at distance zero from it. */
  lemma SqDistanceOnLine(l: Line, u: real)
    requires SqLength(l.d) > VectorEpsilon
    ensures l.SqDistance(l.At(u)) == 0.0
  {
    ParamDistanceOfAt(l, u);
    assert Sub(l.At(u), l.At(u)) == Zero;
  }

  /** SetFromAtoB cannot be asked for the line through one point twice:
      its requirements on the norm of b - a imply that a and b differ. */
  lemma SetFromAtoBNeedsDistinctPoints(a: Vector3, b: Vector3, norm: real)
    requires norm * norm == SqLength(Sub(b, a))
    requires norm > DistanceEpsilon
    ensures a != b
  {
    PositiveSquare(norm);
    assert SqLength(Sub(b, a)) > 0.0;
    if a == b {
      SqLengthSubSelf(a);
    }
  }
}

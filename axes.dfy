/** The plane-normal classification of segmentMultiplePlane and the axis
    vector of segmentSinglePlane. Coefficients are the floats PCL returns;
    they are modelled as reals (float rounding is not modelled). */
module Axes {
  import opened Clouds

  /** The plane a*x + b*y + c*z + d = 0. */
  datatype Coefficients = Coefficients(a: real, b: real, c: real, d: real)

  /** point_cloud_proc::Plane's orientation constants. */
  datatype Orientation = XAxis | YAxis | ZAxis | NoAxis

  function Abs(r: real): real {
    if r < 0.0 then -r else r
  }

  /** Within 0.1 of unit length, both bounds strict. */
  predicate NearOne(v: real) {
    0.9 < Abs(v) < 1.1
  }

  /** Within 0.1 of zero, strict. */
  predicate NearZero(v: real) {
    Abs(v) < 0.1
  }

  /** The normal points along `axis`: that component is near one and the
      other two are near zero. The offset d plays no part. */
  predicate AlignedWith(coef: Coefficients, axis: Axis) {
    match axis
    case X => NearOne(coef.a) && NearZero(coef.b) && NearZero(coef.c)
    case Y => NearZero(coef.a) && NearOne(coef.b) && NearZero(coef.c)
    case Z => NearZero(coef.a) && NearZero(coef.b) && NearOne(coef.c)
  }

  /** The condition chain of segmentMultiplePlane: X is tested first, then Y,
      then Z, and everything else is NOAXIS. Its contract states the label
      without reference to the order of the tests. */
  function Classify(coef: Coefficients): (o: Orientation)
    ensures o == XAxis <==> AlignedWith(coef, X)
    ensures o == YAxis <==> AlignedWith(coef, Y)
    ensures o == ZAxis <==> AlignedWith(coef, Z)
    ensures o == NoAxis <==> !AlignedWith(coef, X) && !AlignedWith(coef, Y) && !AlignedWith(coef, Z)
  {
    if Abs(coef.a) < 1.1 && Abs(coef.a) > 0.9 && Abs(coef.b) < 0.1 && Abs(coef.c) < 0.1 then
      XAxis
    else if Abs(coef.a) < 0.1 && Abs(coef.b) > 0.9 && Abs(coef.b) < 1.1 && Abs(coef.c) < 0.1 then
      YAxis
    else if Abs(coef.a) < 0.1 && Abs(coef.b) < 0.1 && Abs(coef.c) < 1.1 && Abs(coef.c) > 0.9 then
      ZAxis
    else
      NoAxis
  }

  /** The three bands are mutually exclusive, so no plane is aligned with two axes. */
  lemma BandsExclusive(coef: Coefficients, p: Axis, q: Axis)
    requires AlignedWith(coef, p) && AlignedWith(coef, q)
    ensures p == q
  {
  }

  /** Flipping the sign of any normal component, or changing d, keeps the label. */
  lemma ClassifySignInvariant(coef: Coefficients, sa: real, sb: real, sc: real, d: real)
    requires sa == 1.0 || sa == -1.0
    requires sb == 1.0 || sb == -1.0
    requires sc == 1.0 || sc == -1.0
    ensures Classify(Coefficients(sa * coef.a, sb * coef.b, sc * coef.c, d)) == Classify(coef)
  {
    AbsOfSigned(sa, coef.a);
    AbsOfSigned(sb, coef.b);
    AbsOfSigned(sc, coef.c);
  }

  lemma AbsOfSigned(s: real, v: real)
    requires s == 1.0 || s == -1.0
    ensures Abs(s * v) == Abs(v)
  {
  }

  /** The unit normals get their own label; a diagonal normal gets none; the
      band edges are excluded. */
  lemma ClassifyExamples(d: real)
    ensures Classify(Coefficients(1.0, 0.0, 0.0, d)) == XAxis
    ensures Classify(Coefficients(0.0, 1.0, 0.0, d)) == YAxis
    ensures Classify(Coefficients(0.0, 0.0, 1.0, d)) == ZAxis
    ensures Classify(Coefficients(0.0, 0.0, -1.0, d)) == ZAxis
    ensures Classify(Coefficients(0.57, 0.57, 0.57, d)) == NoAxis
    ensures Classify(Coefficients(0.9, 0.0, 0.0, d)) == NoAxis
    ensures Classify(Coefficients(1.0, 0.1, 0.0, d)) == NoAxis
  {
  }

  /** The axis vector segmentSinglePlane builds from its `axis` argument:
      the unit vector of 'x', 'y' or 'z', and the zero vector for any other character. */
  function AxisVector(axis: char): (v: Vec3)
    ensures axis !in "xyz" ==> v == Vec3(0.0, 0.0, 0.0)
    ensures axis in "xyz" ==> v.x * v.x + v.y * v.y + v.z * v.z == 1.0
    ensures v.x == 1.0 <==> axis == 'x'
    ensures v.y == 1.0 <==> axis == 'y'
    ensures v.z == 1.0 <==> axis == 'z'
  {
    var v := Vec3(0.0, 0.0, 0.0);
    if axis == 'x' then v.(x := 1.0)
    else if axis == 'y' then v.(y := 1.0)
    else if axis == 'z' then v.(z := 1.0)
    else v
  }
}

/** Points and vectors of the renderer. Coordinates are exact reals, so float
    rounding is not part of the model. The two trigonometric functions are
    passed in as a `Trig` value and are otherwise uninterpreted. */
module Geometry {

  datatype Point = Point(x: real, y: real, z: real)

  const Origin := Point(0.0, 0.0, 0.0)

  /** `Point::operator+`. */
  function Add(p: Point, q: Point): Point {
    Point(p.x + q.x, p.y + q.y, p.z + q.z)
  }

  function Neg(p: Point): Point {
    Point(-p.x, -p.y, -p.z)
  }

  datatype Trig = Trig(sin: real -> real, cos: real -> real)

  /** `Point::rotateByX`: rotation about the x axis by angle `b`. */
  function RotateByX(p: Point, b: real, trig: Trig): Point {
    Point(p.x, p.y * trig.cos(b) - p.z * trig.sin(b), p.y * trig.sin(b) + p.z * trig.cos(b))
  }

  /** `Point::rotateByY`. */
  function RotateByY(p: Point, b: real, trig: Trig): Point {
    Point(p.x * trig.cos(b) + p.z * trig.sin(b), p.y, -p.x * trig.sin(b) + p.z * trig.cos(b))
  }

  /** `Point::rotateByZ`. */
  function RotateByZ(p: Point, b: real, trig: Trig): Point {
    Point(p.x * trig.cos(b) - p.y * trig.sin(b), p.x * trig.sin(b) + p.y * trig.cos(b), p.z)
  }

  /** The Euler rotation a mesh applies to each vertex: about x, then y, then z. */
  function Rotate(p: Point, a: real, b: real, c: real, trig: Trig): Point {
    RotateByZ(RotateByY(RotateByX(p, a, trig), b, trig), c, trig)
  }

  /** What sine and cosine satisfy at one angle: the Pythagorean identity and parity. */
  predicate TrigLawsAt(trig: Trig, b: real) {
    && trig.sin(b) * trig.sin(b) + trig.cos(b) * trig.cos(b) == 1.0
    && trig.sin(-b) == -trig.sin(b)
    && trig.cos(-b) == trig.cos(b)
  }

  predicate TrigLawsAtZero(trig: Trig) {
    trig.sin(0.0) == 0.0 && trig.cos(0.0) == 1.0
  }

  /** Translating by `d` and then by `-d` restores the point exactly. */
  lemma TranslateUndo(p: Point, d: Point)
    ensures Add(Add(p, d), Neg(d)) == p
  {
  }

  lemma PlaneRotationUndo(u: real, w: real, s: real, c: real)
    requires s * s + c * c == 1.0
    ensures (u * c - w * s) * c + (u * s + w * c) * s == u
    ensures -(u * c - w * s) * s + (u * s + w * c) * c == w
  {
    calc {
      (u * c - w * s) * c + (u * s + w * c) * s;
      u * (c * c + s * s);
      u;
    }
    calc {
      -(u * c - w * s) * s + (u * s + w * c) * c;
      w * (s * s + c * c);
      w;
    }
  }

  /** Rotating about x by `b` and then by `-b` restores the point. */
  lemma RotateByXUndo(p: Point, b: real, trig: Trig)
    requires TrigLawsAt(trig, b)
    ensures RotateByX(RotateByX(p, b, trig), -b, trig) == p
  {
    PlaneRotationUndo(p.y, p.z, trig.sin(b), trig.cos(b));
  }

  /** Rotating about y by `b` and then by `-b` restores the point. */
  lemma RotateByYUndo(p: Point, b: real, trig: Trig)
    requires TrigLawsAt(trig, b)
    ensures RotateByY(RotateByY(p, b, trig), -b, trig) == p
  {
    PlaneRotationUndo(p.z, p.x, trig.sin(b), trig.cos(b));
  }

  /** Rotating about z by `b` and then by `-b` restores the point. */
  lemma RotateByZUndo(p: Point, b: real, trig: Trig)
    requires TrigLawsAt(trig, b)
    ensures RotateByZ(RotateByZ(p, b, trig), -b, trig) == p
  {
    PlaneRotationUndo(p.x, p.y, trig.sin(b), trig.cos(b));
  }

  /** The Euler rotation is undone by the opposite angles in the opposite order. */
  lemma RotateUndo(p: Point, a: real, b: real, c: real, trig: Trig)
    requires TrigLawsAt(trig, a) && TrigLawsAt(trig, b) && TrigLawsAt(trig, c)
    ensures RotateByX(RotateByY(RotateByZ(Rotate(p, a, b, c, trig), -c, trig), -b, trig), -a, trig) == p
  {
    var px := RotateByX(p, a, trig);
    var pxy := RotateByY(px, b, trig);
    RotateByZUndo(pxy, c, trig);
    RotateByYUndo(px, b, trig);
    RotateByXUndo(p, a, trig);
  }

  /** The rotation by three zero angles leaves every point where it is. */
  lemma RotateByZeroIsIdentity(p: Point, trig: Trig)
    requires TrigLawsAtZero(trig)
    ensures Rotate(p, 0.0, 0.0, 0.0, trig) == p
  {
  }
}

/** The loader's value types: a texture coordinate, a vertex pairing a
    position with a texture coordinate, and a triangle of three vertices
    that carries its material (the colour callback, opaque here as `M`).
    Transforms never mutate a triangle; they build a new one. */
module Mesh {
  import opened Geometry

  datatype TexCoord = TexCoord(u: real, v: real)

  datatype TriangleVertex = TriangleVertex(v: Point, vt: TexCoord)

  datatype TextureTriangle<M> = TextureTriangle(v1: TriangleVertex, v2: TriangleVertex, v3: TriangleVertex, material: M)

  /** `TriangleVertex::operator+(Point)`: moves the position, keeps the texture coordinate. */
  function TranslateVertex(tv: TriangleVertex, d: Point): TriangleVertex {
    TriangleVertex(Add(tv.v, d), tv.vt)
  }

  /** `TextureTriangle::operator+`: moves all three vertices, keeps the material. */
  function Translate<M>(t: TextureTriangle<M>, d: Point): TextureTriangle<M> {
    TextureTriangle(TranslateVertex(t.v1, d), TranslateVertex(t.v2, d), TranslateVertex(t.v3, d), t.material)
  }

  function RotateVertex(tv: TriangleVertex, a: real, b: real, c: real, trig: Trig): TriangleVertex {
    TriangleVertex(Rotate(tv.v, a, b, c, trig), tv.vt)
  }

  /** `TextureTriangle::rotate`: rotates the three positions about x, y, z in turn. */
  function RotateTriangle<M>(t: TextureTriangle<M>, a: real, b: real, c: real, trig: Trig): TextureTriangle<M> {
    TextureTriangle(RotateVertex(t.v1, a, b, c, trig), RotateVertex(t.v2, a, b, c, trig),
                    RotateVertex(t.v3, a, b, c, trig), t.material)
  }

  /** Same texture coordinates and material: what rotation and translation never change. */
  ghost predicate SameSurface<M>(s: TextureTriangle<M>, t: TextureTriangle<M>) {
    s.v1.vt == t.v1.vt && s.v2.vt == t.v2.vt && s.v3.vt == t.v3.vt && s.material == t.material
  }

  /** Translating a triangle by `d` and then by `-d` restores it. */
  lemma TranslateTriangleUndo<M>(t: TextureTriangle<M>, d: Point)
    ensures Translate(Translate(t, d), Neg(d)) == t
  {
    TranslateUndo(t.v1.v, d);
    TranslateUndo(t.v2.v, d);
    TranslateUndo(t.v3.v, d);
  }

  function UnrotateVertex(tv: TriangleVertex, a: real, b: real, c: real, trig: Trig): TriangleVertex {
    TriangleVertex(RotateByX(RotateByY(RotateByZ(tv.v, -c, trig), -b, trig), -a, trig), tv.vt)
  }

  /** The opposite angles applied in the opposite order: z, then y, then x. */
  function UnrotateTriangle<M>(t: TextureTriangle<M>, a: real, b: real, c: real, trig: Trig): TextureTriangle<M> {
    TextureTriangle(UnrotateVertex(t.v1, a, b, c, trig), UnrotateVertex(t.v2, a, b, c, trig),
                    UnrotateVertex(t.v3, a, b, c, trig), t.material)
  }

  /** Rotating a triangle and then applying the opposite angles in the
      opposite order restores it. */
  lemma RotateTriangleUndo<M>(t: TextureTriangle<M>, a: real, b: real, c: real, trig: Trig)
    requires TrigLawsAt(trig, a) && TrigLawsAt(trig, b) && TrigLawsAt(trig, c)
    ensures UnrotateTriangle(RotateTriangle(t, a, b, c, trig), a, b, c, trig) == t
  {
    RotateUndo(t.v1.v, a, b, c, trig);
    RotateUndo(t.v2.v, a, b, c, trig);
    RotateUndo(t.v3.v, a, b, c, trig);
  }

  /** Placing a triangle in the scene (rotate, then displace) loses nothing:
      moving it back by `-d` and un-rotating it gives the original. */
  lemma PlaceTriangleUndo<M>(t: TextureTriangle<M>, a: real, b: real, c: real, d: Point, trig: Trig)
    requires TrigLawsAt(trig, a) && TrigLawsAt(trig, b) && TrigLawsAt(trig, c)
    ensures UnrotateTriangle(Translate(Translate(RotateTriangle(t, a, b, c, trig), d), Neg(d)), a, b, c, trig) == t
  {
    TranslateTriangleUndo(RotateTriangle(t, a, b, c, trig), d);
    RotateTriangleUndo(t, a, b, c, trig);
  }
}

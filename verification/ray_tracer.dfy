/** Class `RayTracer`: one primary ray per pixel of an h-by-w image, rows
    outer and columns inner, all from the camera origin; then one colour per
    ray. `Ray::findColor` is not part of this model: it is the parameter
    `findColor`, which also receives the scene and the recursion depth. */
module RayTracing {
  import opened Wrappers
  import opened Ints
  import opened Geometry

  /** Three integer channels, as in `struct Color`. */
  datatype Color = Color(r: int, g: int, b: int)

  /** What `Color()` constructs, the initial content of the colour buffer. */
  const Black := Color(0, 0, 0)

  /** The arguments handed to the `Ray` constructor: origin and the direction
      before normalisation. The normalisation belongs to `findColor`'s side. */
  datatype Ray = Ray(origin: Point, dir: Point)

  /** `emplace_back` throws `std::length_error` when the vector already
      holds `max_size()` elements. */
  datatype VectorError = LengthError

  /** The constructor's four fields. `dir` is stored but never read. */
  datatype RayTracer = RayTracer(origin: Point, dir: Point, h: Int32, w: Int32)

  /** Number of iterations of the outer loop: `i < h` compares a `size_t`
      with `h` converted to `size_t`. */
  function Rows(t: RayTracer): nat {
    SizeT(t.h)
  }

  /** Number of iterations of the inner loop. */
  function Cols(t: RayTracer): nat {
    SizeT(t.w)
  }

  /** The direction given to the ray of row `i`, column `j`. */
  function PixelDirection(t: RayTracer, i: nat, j: nat): Point
    requires i < Rows(t) && j < Cols(t)
  {
    Point(-1.0 + 2.0 * (j as real) / (t.w as real), 1.0 - 2.0 * (i as real) / (t.h as real), 1.0)
  }

  function PixelRay(t: RayTracer, i: nat, j: nat): Ray
    requires i < Rows(t) && j < Cols(t)
  {
    Ray(t.origin, PixelDirection(t, i, j))
  }

  /** Row-major position of pixel (i, j). */
  function PixelIndex(t: RayTracer, i: nat, j: nat): nat {
    i * Cols(t) + j
  }

  /** The rays one pass of the inner loop appends. */
  function RowRays(t: RayTracer, i: nat): seq<Ray>
    requires i < Rows(t)
  {
    seq(Cols(t), j requires 0 <= j < Cols(t) => PixelRay(t, i, j))
  }

  /** The rays after `n` passes of the outer loop. */
  function Rays(t: RayTracer, n: nat): seq<Ray>
    requires n <= Rows(t)
  {
    if n == 0 then [] else Rays(t, n - 1) + RowRays(t, n - 1)
  }

  lemma MulMonotone(a: nat, b: nat, c: nat)
    requires a <= b
    ensures a * c <= b * c
  {
  }

  /** After `n` rows there are `n * w` rays, each from the camera origin, and
      the ray of pixel (i, j) sits at index `i * w + j`. */
  lemma {:induction false} RaysShape(t: RayTracer, n: nat)
    requires n <= Rows(t)
    ensures |Rays(t, n)| == n * Cols(t)
    ensures forall k | 0 <= k < |Rays(t, n)| :: Rays(t, n)[k].origin == t.origin
    ensures forall i: nat, j: nat | i < n && j < Cols(t) ::
              PixelIndex(t, i, j) < |Rays(t, n)| && Rays(t, n)[PixelIndex(t, i, j)] == PixelRay(t, i, j)
  {
    if n > 0 {
      RaysShape(t, n - 1);
      var prev := Rays(t, n - 1);
      var row := RowRays(t, n - 1);
      assert |prev| + Cols(t) == n * Cols(t);
      forall i: nat, j: nat | i < n && j < Cols(t)
        ensures PixelIndex(t, i, j) < |Rays(t, n)| && Rays(t, n)[PixelIndex(t, i, j)] == PixelRay(t, i, j)
      {
        if i < n - 1 {
          MulMonotone(i + 1, n - 1, Cols(t));
        } else {
          assert PixelIndex(t, i, j) == |prev| + j;
        }
      }
    }
  }

  /** `generateRays`: the two nested loops. `maxSize` is
      `std::vector<Ray>::max_size()`, which the implementation fixes; the push
      that would exceed it throws, and the rays built so far are lost. */
  method GenerateRays(t: RayTracer, maxSize: nat) returns (r: Result<seq<Ray>, VectorError>)
    ensures r.Err? <==> maxSize < Rows(t) * Cols(t)
    ensures r.Ok? ==> |r.value| == Rows(t) * Cols(t)
    ensures r.Ok? ==> forall k | 0 <= k < |r.value| :: r.value[k].origin == t.origin
    ensures r.Ok? ==> forall i: nat, j: nat | i < Rows(t) && j < Cols(t) ::
              PixelIndex(t, i, j) < |r.value| && r.value[PixelIndex(t, i, j)] == PixelRay(t, i, j)
  {
    var rays := [];
    var i := 0;
    while i < Rows(t)
      invariant i <= Rows(t)
      invariant rays == Rays(t, i)
      invariant |rays| <= maxSize
    {
      var j := 0;
      while j < Cols(t)
        invariant j <= Cols(t)
        invariant rays == Rays(t, i) + RowRays(t, i)[..j]
        invariant |rays| <= maxSize
      {
        if |rays| == maxSize {
          PushOverflows(t, i, j, maxSize);
          return Err(LengthError);
        }
        rays := rays + [Ray(t.origin, PixelDirection(t, i, j))];
        j := j + 1;
      }
      assert RowRays(t, i)[..j] == RowRays(t, i);
      i := i + 1;
    }
    RaysShape(t, Rows(t));
    return Ok(rays);
  }

  /** A push that finds `maxSize` rays already in place, at pixel (i, j),
      shows the image needs more than `maxSize` rays. */
  lemma PushOverflows(t: RayTracer, i: nat, j: nat, maxSize: nat)
    requires i < Rows(t) && j < Cols(t)
    requires |Rays(t, i) + RowRays(t, i)[..j]| == maxSize
    ensures maxSize < Rows(t) * Cols(t)
  {
    RaysShape(t, i);
    MulMonotone(i + 1, Rows(t), Cols(t));
  }

  /** Every `max_size()` is below 2^63, so a negative height or width, read
      as a count of about 2^64, always makes `generateRays` throw unless the
      other dimension is 0. */
  lemma NegativeResolutionOverflows(t: RayTracer, maxSize: nat)
    requires maxSize <= PtrdiffMax
    requires (t.h < 0 && t.w != 0) || (t.w < 0 && t.h != 0)
    ensures maxSize < Rows(t) * Cols(t)
  {
    if t.h < 0 {
      assert PtrdiffMax < Rows(t);
      MulMonotone(1, Cols(t), Rows(t));
    } else {
      assert PtrdiffMax < Cols(t);
      MulMonotone(1, Rows(t), Cols(t));
    }
  }

  lemma DivBelowOne(a: real, b: real)
    requires 0.0 <= a < b
    ensures 0.0 <= a / b < 1.0
  {
  }

  /** For a positive resolution the direction of every pixel lies on the
      plane z = 1 inside the square x in [-1, 1), y in (-1, 1]. A negative
      width or height, which the loops read as a huge unsigned count, puts
      every direction outside that square. */
  lemma PixelDirectionWindow(t: RayTracer, i: nat, j: nat)
    requires i < Rows(t) && j < Cols(t)
    ensures var d := PixelDirection(t, i, j);
            && d.z == 1.0
            && (0 < t.w ==> -1.0 <= d.x < 1.0)
            && (0 < t.h ==> -1.0 < d.y <= 1.0)
            && (t.w < 0 ==> d.x <= -1.0)
            && (t.h < 0 ==> 1.0 <= d.y)
  {
    var w := t.w as real;
    var h := t.h as real;
    if 0 < t.w {
      DivBelowOne(j as real, w);
      assert 2.0 * (j as real) / w == 2.0 * ((j as real) / w);
    }
    if 0 < t.h {
      DivBelowOne(i as real, h);
      assert 2.0 * (i as real) / h == 2.0 * ((i as real) / h);
    }
    if t.w < 0 {
      assert 2.0 * (j as real) / w == -(2.0 * (j as real) / -w);
    }
    if t.h < 0 {
      assert 2.0 * (i as real) / h == -(2.0 * (i as real) / -h);
    }
  }

  /** Where a direction meets the image plane, in pixel units: the inverse of
      `PixelDirection`. */
  function PixelOf(t: RayTracer, d: Point): (real, real) {
    ((1.0 - d.y) * (t.h as real) / 2.0, (d.x + 1.0) * (t.w as real) / 2.0)
  }

  /** Every pixel's direction leads back to that pixel. */
  lemma PixelOfDirection(t: RayTracer, i: nat, j: nat)
    requires i < Rows(t) && j < Cols(t)
    ensures PixelOf(t, PixelDirection(t, i, j)) == (i as real, j as real)
  {
    var w := t.w as real;
    var h := t.h as real;
    var d := PixelDirection(t, i, j);
    var xs := 2.0 * (j as real) / w;
    var ys := 2.0 * (i as real) / h;
    assert d.x + 1.0 == xs;
    assert 1.0 - d.y == ys;
    assert xs * w == 2.0 * (j as real);
    assert ys * h == 2.0 * (i as real);
    assert (d.x + 1.0) * w / 2.0 == j as real;
    assert (1.0 - d.y) * h / 2.0 == i as real;
    assert PixelOf(t, d).0 == i as real;
    assert PixelOf(t, d).1 == j as real;
  }

  /** Distinct pixels get distinct rays. */
  lemma PixelRaysDistinct(t: RayTracer, i: nat, j: nat, i': nat, j': nat)
    requires i < Rows(t) && j < Cols(t) && i' < Rows(t) && j' < Cols(t)
    requires PixelRay(t, i, j) == PixelRay(t, i', j')
    ensures i == i' && j == j'
  {
    PixelOfDirection(t, i, j);
    PixelOfDirection(t, i', j');
  }

  /** The stored `dir` plays no part in the rays: they depend only on the
      origin and the resolution. */
  lemma {:induction false} DirIgnored(t: RayTracer, d: Point, n: nat)
    requires n <= Rows(t)
    ensures Rays(t.(dir := d), n) == Rays(t, n)
  {
    if n > 0 {
      DirIgnored(t, d, n - 1);
      assert RowRays(t.(dir := d), n - 1) == RowRays(t, n - 1);
    }
  }

  /** The per-ray colouring, in index order. */
  method ColorRays<S>(rays: seq<Ray>, scene: S, findColor: (Ray, S, nat) -> Color) returns (colors: seq<Color>)
    ensures |colors| == |rays|
    ensures forall k | 0 <= k < |rays| :: colors[k] == findColor(rays[k], scene, 0)
  {
    colors := [];
    var k := 0;
    while k < |rays|
      invariant k <= |rays|
      invariant |colors| == k
      invariant forall m | 0 <= m < k :: colors[m] == findColor(rays[m], scene, 0)
    {
      colors := colors + [findColor(rays[k], scene, 0)];
      k := k + 1;
    }
  }

  /** The parallel `std::transform`: a buffer of `Color()` values whose slots
      are filled in the order `schedule` lists them. Any schedule that visits
      every slot, in any order and even more than once, gives the buffer of
      the sequential loop. */
  method ColorRaysScheduled<S>(rays: seq<Ray>, scene: S, findColor: (Ray, S, nat) -> Color, schedule: seq<nat>)
    returns (colors: seq<Color>)
    requires forall s | 0 <= s < |schedule| :: schedule[s] < |rays|
    requires forall k | 0 <= k < |rays| :: k in schedule
    ensures |colors| == |rays|
    ensures forall k | 0 <= k < |rays| :: colors[k] == findColor(rays[k], scene, 0)
  {
    colors := seq(|rays|, _ => Black);
    var s := 0;
    while s < |schedule|
      invariant s <= |schedule|
      invariant |colors| == |rays|
      invariant forall k | 0 <= k < |rays| ::
                  colors[k] == if k in schedule[..s] then findColor(rays[k], scene, 0) else Black
    {
      var k := schedule[s];
      colors := colors[k := findColor(rays[k], scene, 0)];
      assert schedule[..s + 1] == schedule[..s] + [k];
      s := s + 1;
    }
    assert schedule[..s] == schedule;
  }

  /** `render`: one colour per generated ray, at depth 0, in row-major order.
      The colour buffer has as many elements as the ray vector and a smaller
      element type, so only `generateRays` can throw. */
  method Render<S>(t: RayTracer, maxSize: nat, scene: S, findColor: (Ray, S, nat) -> Color)
    returns (r: Result<seq<Color>, VectorError>)
    ensures r.Err? <==> maxSize < Rows(t) * Cols(t)
    ensures r.Ok? ==> |r.value| == Rows(t) * Cols(t)
    ensures r.Ok? ==> forall i: nat, j: nat | i < Rows(t) && j < Cols(t) ::
              PixelIndex(t, i, j) < |r.value| && r.value[PixelIndex(t, i, j)] == findColor(PixelRay(t, i, j), scene, 0)
  {
    var rays := GenerateRays(t, maxSize);
    if rays.Err? {
      return Err(rays.error);
    }
    var colors := ColorRays(rays.value, scene, findColor);
    return Ok(colors);
  }
}

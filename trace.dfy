// The ray tracer's driver (src/trace/Trace.h): one ray per pixel through
// the view frustum, the colour of its nearest hit or a dark grey, and the
// fixed scene of two lights and two spheres. `std::sin` is a parameter.
// Trace.cpp includes math/Default.h and math/Aligned.h, which are not part
// of this model; its vectors are taken to be the lane algebra of module
// Lanes.

module Tracing {
  import L = Lanes
  import N = Intersect
  import C = Colors
  import S = Scenes
  import I = Images
  import B = Bitmaps

  /**
   * The view (src/trace/Frustum.h): the eye, the forward, left and up vectors
   * as stored (already scaled out to the far plane), and the near and far
   * distances.
   */
  datatype Frustum = Frustum(origin: L.Vec4, forward: L.Vec4, left: L.Vec4, up: L.Vec4, near: real, far: real)

  /** The `Frustum` constructor: forward scaled by `zfar`, left and up by `zfar * sin(fov / 2)`. */
  function FrustumOf(sin: real -> real, origin: L.Vec4, forward: L.Vec4, left: L.Vec4, up: L.Vec4,
                     znear: real, zfar: real, fovX: real, fovY: real): Frustum
  {
    Frustum(origin, L.Scale(forward, zfar), L.Scale(left, zfar * sin(0.5 * fovX)), L.Scale(up, zfar * sin(0.5 * fovY)),
            znear, zfar)
  }

  /** The colour of a pixel whose ray meets nothing. */
  const DefaultColor: C.Color := C.Color(0.1, 0.1, 0.1, 1.0)

  /** Where the centre of pixel `i` of `n` lies across the view: `1 - 2 (i + 0.5) / n`, strictly inside (-1, 1). */
  function PixelFactor(i: nat, n: nat): (r: real)
    requires i < n
    ensures -1.0 < r < 1.0
  {
    QuotientInUnit(i as real + 0.5, n as real);
    1.0 - 2.0 * ((i as real + 0.5) / n as real)
  }

  /** A quotient of positive reals with the smaller on top lies strictly between 0 and 1. */
  lemma QuotientInUnit(x: real, n: real)
    requires 0.0 < x < n
    ensures 0.0 < x / n < 1.0
  {
    var q := x / n;
    assert q * n == x;
    if q <= 0.0 {
      assert false;
    }
    if q >= 1.0 {
      assert false;
    }
  }

  /**
   * The ray of pixel (ii, jj): `dfar = forward + up * f(ii) + left * f(jj)`,
   * from `origin + dfar * (near / far)` to `origin + dfar`.
   */
  function PixelRay(view: Frustum, width: nat, height: nat, ii: nat, jj: nat): N.Ray
    requires ii < height && jj < width
  {
    var dh := L.Scale(view.up, PixelFactor(ii, height));
    var dw := L.Scale(view.left, PixelFactor(jj, width));
    var dfar := L.Add(L.Add(view.forward, dh), dw);
    N.Ray(L.Add(view.origin, L.Scale(dfar, L.Quot(view.near, view.far))), L.Add(view.origin, dfar))
  }

  /**
   * With 0 < near <= far, a pixel's ray starts on the segment from the eye to
   * its end, the fraction near / far of the way along.
   */
  lemma StartOnSegment(view: Frustum, width: nat, height: nat, ii: nat, jj: nat)
    requires ii < height && jj < width
    requires 0.0 < view.near <= view.far
    ensures var ray := PixelRay(view, width, height, ii, jj);
            var s := view.near / view.far;
            0.0 < s <= 1.0 && ray.start == L.Add(view.origin, L.Scale(L.Sub(ray.end, view.origin), s))
  {
    var ray := PixelRay(view, width, height, ii, jj);
    var s := view.near / view.far;
    assert s * view.far == view.near;
    var dfar := L.Sub(ray.end, view.origin);
    assert L.Add(L.Add(view.forward, L.Scale(view.up, PixelFactor(ii, height))), L.Scale(view.left, PixelFactor(jj, width))) == dfar;
  }

  /**
   * The frustum keeps the camera frame: forward reaches `zfar` times as far,
   * and scaled vectors stay orthogonal when the given ones are.
   */
  lemma FrustumKeepsFrame(sin: real -> real, origin: L.Vec4, forward: L.Vec4, left: L.Vec4, up: L.Vec4,
                          znear: real, zfar: real, fovX: real, fovY: real)
    ensures var f := FrustumOf(sin, origin, forward, left, up, znear, zfar, fovX, fovY);
            L.LengthSqr(f.forward) == zfar * zfar * L.LengthSqr(forward)
    ensures var f := FrustumOf(sin, origin, forward, left, up, znear, zfar, fovX, fovY);
            (L.Dot(forward, left) == 0.0 ==> L.Dot(f.forward, f.left) == 0.0)
            && (L.Dot(forward, up) == 0.0 ==> L.Dot(f.forward, f.up) == 0.0)
  {
    var f := FrustumOf(sin, origin, forward, left, up, znear, zfar, fovX, fovY);
    ScaledDot(forward, forward, zfar, zfar);
    ScaledDot(forward, left, zfar, zfar * sin(0.5 * fovX));
    ScaledDot(forward, up, zfar, zfar * sin(0.5 * fovY));
  }

  /** Scaling both operands scales the dot product by the product of the factors. */
  lemma ScaledDot(a: L.Vec4, b: L.Vec4, s: real, t: real)
    ensures L.Dot(L.Scale(a, s), L.Scale(b, t)) == s * t * L.Dot(a, b)
  {
    L.DotScale(L.Scale(a, s), b, t);
    L.DotSymmetric(L.Scale(a, s), b);
    L.DotScale(b, a, s);
    L.DotSymmetric(b, a);
    var d := L.Dot(a, b);
    assert L.Dot(L.Scale(a, s), L.Scale(b, t)) == (d * s) * t;
    assert (d * s) * t == s * t * d;
  }

  /** Pixels mirrored across the centre of a row or column get opposite factors. */
  lemma PixelFactorSymmetric(i: nat, n: nat)
    requires i < n
    ensures PixelFactor(n - 1 - i, n) == -PixelFactor(i, n)
  {
    var x, y := i as real + 0.5, (n - 1 - i) as real + 0.5;
    assert x + y == n as real;
    assert x / n as real + y / n as real == 1.0;
    assert PixelFactor(i, n) == 1.0 - 2.0 * (x / n as real);
    assert PixelFactor(n - 1 - i, n) == 1.0 - 2.0 * (y / n as real);
  }

  /**
   * Every pixel's ray ends inside the far rectangle: at forward plus strictly
   * less than the full `up` and `left` extents from the eye.
   */
  lemma PixelRayInView(view: Frustum, width: nat, height: nat, ii: nat, jj: nat)
    requires ii < height && jj < width
    ensures var ray := PixelRay(view, width, height, ii, jj);
            exists a: real, b: real :: -1.0 < a < 1.0 && -1.0 < b < 1.0
              && L.Sub(ray.end, view.origin) == L.Add(L.Add(view.forward, L.Scale(view.up, a)), L.Scale(view.left, b))
  {
    var ray := PixelRay(view, width, height, ii, jj);
    var a, b := PixelFactor(ii, height), PixelFactor(jj, width);
    assert L.Sub(ray.end, view.origin) == L.Add(L.Add(view.forward, L.Scale(view.up, a)), L.Scale(view.left, b));
  }

  /** The colour `TraceView` leaves in pixel (ii, jj): the shaded nearest hit, or the default colour. */
  function PixelColor(sh: S.Shader, scene: S.Scene, view: Frustum, width: nat, height: nat, ii: nat, jj: nat): (c: C.Color)
    requires ii < height && jj < width
    ensures var ray := PixelRay(view, width, height, ii, jj);
            S.Nearest(sh.sqrt, ray, scene.spheres).None? ==> c == DefaultColor
  {
    var ray := PixelRay(view, width, height, ii, jj);
    match S.TraceColorValue(sh, scene, ray.start, ray.end, S.DefaultHitCount)
    case Some(shaded) => shaded
    case None => DefaultColor
  }

  /**
   * `TraceView`: every pixel (ii < height, jj < width) is set, row by row,
   * to its traced colour or to the default colour on a miss.
   */
  method TraceView(sh: S.Shader, view: Frustum, scene: S.Scene, image: I.Image)
    requires image.Valid()
    modifies image.pixels
    ensures forall ii, jj :: 0 <= ii < image.height && 0 <= jj < image.width ==>
              image.At(ii, jj) == PixelColor(sh, scene, view, image.width, image.height, ii, jj)
  {
    var zscale := L.Quot(view.near, view.far);
    var ii := 0;
    while ii < image.height
      invariant 0 <= ii <= image.height
      invariant forall i, j :: 0 <= i < ii && 0 <= j < image.width ==>
                  image.At(i, j) == PixelColor(sh, scene, view, image.width, image.height, i, j)
    {
      var dh := L.Scale(view.up, PixelFactor(ii, image.height));
      var jj := 0;
      while jj < image.width
        invariant 0 <= jj <= image.width
        invariant forall i, j :: 0 <= i < image.height && 0 <= j < image.width && (i < ii || (i == ii && j < jj)) ==>
                    image.At(i, j) == PixelColor(sh, scene, view, image.width, image.height, i, j)
      {
        TracePixel(sh, view, scene, image, ii, jj, dh, zscale);
        jj := jj + 1;
      }
      ii := ii + 1;
    }
  }

  /**
   * The body of `TraceView`'s inner loop: pixel (ii, jj) gets the colour
   * `TraceColor` writes into it, or the default colour when it reports a
   * miss; no other pixel changes.
   */
  method TracePixel(sh: S.Shader, view: Frustum, scene: S.Scene, image: I.Image, ii: nat, jj: nat, dh: L.Vec4, zscale: real)
    requires image.Valid() && ii < image.height && jj < image.width
    requires dh == L.Scale(view.up, PixelFactor(ii, image.height)) && zscale == L.Quot(view.near, view.far)
    modifies image.pixels
    ensures image.At(ii, jj) == PixelColor(sh, scene, view, image.width, image.height, ii, jj)
    ensures forall i, j :: 0 <= i < image.height && 0 <= j < image.width && (i != ii || j != jj) ==>
              image.At(i, j) == old(image.At(i, j))
  {
    var dw := L.Scale(view.left, PixelFactor(jj, image.width));
    var dfar := L.Add(L.Add(view.forward, dh), dw);
    var end := L.Add(view.origin, dfar);
    var start := L.Add(view.origin, L.Scale(dfar, zscale));
    assert N.Ray(start, end) == PixelRay(view, image.width, image.height, ii, jj);
    var pixel := new C.ColorCell(image.At(ii, jj));
    var found := S.TraceColor(sh, scene, start, end, pixel, S.DefaultHitCount);
    if found {
      image.Set(ii, jj, pixel.value);
    } else {
      image.Set(ii, jj, DefaultColor);
    }
  }

  /** A material with the given diffuse colour, roughness and reflectance, and a white specular colour. */
  function Plastic(diffuse: C.Color, roughness: real, reflectance: real): S.Material
  {
    S.Material(diffuse, roughness, reflectance, C.Color(1.0, 1.0, 1.0, 1.0))
  }

  /** The scene `Trace` builds: a white and a cyan light, a small red and a large blue sphere. */
  function FixedScene(): (scene: S.Scene)
    ensures |scene.lights| == 2 && |scene.spheres| == 2
    ensures forall k :: 0 <= k < 2 ==> scene.lights[k].intensity == 10.0 && scene.spheres[k].sphere.radius > 0.0
  {
    S.Scene(
      [S.Light(L.Vec4(2.0, 0.0, 4.0, 1.0), C.Color(1.0, 1.0, 1.0, 1.0), 10.0),
       S.Light(L.Vec4(6.0, -4.0, -2.0, 1.0), C.Color(0.2, 1.0, 1.0, 1.0), 10.0)],
      [S.TraceSphere(N.Sphere(L.Vec4(3.0, 0.0, 0.0, 1.0), 0.5), Plastic(C.Color(0.2, 0.05, 0.02, 1.0), 0.4, 0.04)),
       S.TraceSphere(N.Sphere(L.Vec4(6.0, 1.0, 1.0, 1.0), 1.5), Plastic(C.Color(0.05, 0.02, 0.2, 1.0), 0.02, 0.04))])
  }

  /** The view `Trace` builds: from (.5, .5, .4) along x, near .1, far 8, both fields of view 1. */
  function FixedView(sin: real -> real): (view: Frustum)
    ensures 0.0 < view.near <= view.far
  {
    FrustumOf(sin, L.Vec4(0.5, 0.5, 0.4, 1.0), L.Vec4(1.0, 0.0, 0.0, 0.0), L.Vec4(0.0, 1.0, 0.0, 0.0),
              L.Vec4(0.0, 0.0, 1.0, 0.0), 0.1, 8.0, 1.0, 1.0)
  }

  /**
   * `Trace`: renders the fixed scene into a new width * height image and
   * saves it exactly when a file name is given.
   */
  method Trace(sh: S.Shader, sin: real -> real, pow: (real, real) -> real, windows: bool,
               width: nat, height: nat, filename: N.Option<string>) returns (image: I.Image, saved: N.Option<B.Outcome>)
    ensures image.width == width && image.height == height && image.Valid()
    ensures forall ii, jj :: 0 <= ii < height && 0 <= jj < width ==>
              image.At(ii, jj) == PixelColor(sh, FixedScene(), FixedView(sin), width, height, ii, jj)
    ensures saved.Some? <==> filename.Some?
    ensures filename.Some? ==> saved.value == B.WriteBitmapBGR(windows, filename.value, width, height, I.Packed(pow, image.pixels[..]))
  {
    image := new I.Image(width, height);
    TraceView(sh, FixedView(sin), FixedScene(), image);
    if filename.Some? {
      var outcome := image.Save(pow, windows, filename.value);
      saved := N.Some(outcome);
    } else {
      saved := N.None;
    }
  }
}

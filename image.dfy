// The ray tracer's image (src/trace/Image.h): a row-major buffer of
// width * height colours, the gamma encoding of a channel into a byte, and
// `Save`, which packs the pixels into blue, green, red bytes and hands them
// to the bitmap writer. `std::pow` is a parameter.

module Images {
  import C = Colors
  import B = Bitmaps

  /** `int(x)` for a float: the conversion rounds toward zero. */
  function Truncate(x: real): (r: int)
    ensures x >= 0.0 ==> r == x.Floor
    ensures x < 0.0 ==> r == -((-x).Floor) && r <= 0
  {
    if x >= 0.0 then x.Floor else -((-x).Floor)
  }

  /**
   * `ClampByte`: the channel times 255, truncated, capped at 255 and stored
   * in a `uint8_t`, which keeps it modulo 256.
   */
  function ClampByte(c: real): (b: B.byte)
    ensures 0.0 <= c ==> b as int == (if (c * 255.0).Floor < 255 then (c * 255.0).Floor else 255)
    ensures 1.0 <= c ==> b == 255
    ensures c < 0.0 ==> b as int == Truncate(c * 255.0) % 256
  {
    var t := Truncate(c * 255.0);
    var m := if t < 255 then t else 255;
    (m % 256) as B.byte
  }

  /** Brighter non-negative channels never give smaller bytes. */
  lemma ClampByteMonotone(c: real, d: real)
    requires 0.0 <= c <= d
    ensures ClampByte(c) <= ClampByte(d)
  {
    assert c * 255.0 <= d * 255.0;
  }

  /** The threshold below which the sRGB curve is linear. */
  const LinearLimit: real := 0.0031308

  /** The exponent of the curve's power segment, 1 / 2.4 as written. */
  const Exponent: real := 0.41666

  /**
   * `EncodeGamma`: 0 below 0, the linear segment `12.92 * c`, the power
   * segment `1.055 * c^0.41666 - 0.055`, and 255 from 1 up; the two segments
   * through `ClampByte`.
   */
  function EncodeGamma(pow: (real, real) -> real, c: real): (r: B.byte)
    ensures c < 0.0 ==> r == 0
    ensures 0.0 <= c < LinearLimit ==> r == ClampByte(12.92 * c) && r <= 10
    ensures LinearLimit <= c < 1.0 ==> r == ClampByte(1.055 * pow(c, Exponent) - 0.055)
    ensures 1.0 <= c ==> r == 255
  {
    if c < 0.0 then 0
    else if c < LinearLimit then
      assert 12.92 * c * 255.0 < 11.0;
      ClampByte(12.92 * c)
    else if c < 1.0 then ClampByte(1.055 * pow(c, Exponent) - 0.055)
    else 255
  }

  /** `pow(., 0.41666)` is non-decreasing from the start of the power segment on. */
  ghost predicate PowIncreasing(pow: (real, real) -> real)
  {
    forall x, y :: LinearLimit <= x <= y ==> pow(x, Exponent) <= pow(y, Exponent)
  }

  /**
   * With a non-decreasing `pow` that meets the linear segment where the sRGB
   * curve does (0.0031308^0.41666 is about 0.0905), the encoding preserves
   * the order of the channels.
   */
  lemma EncodeGammaMonotone(pow: (real, real) -> real, c: real, d: real)
    requires PowIncreasing(pow)
    requires pow(LinearLimit, Exponent) >= 0.0894
    requires c <= d
    ensures EncodeGamma(pow, c) <= EncodeGamma(pow, d)
  {
    if 0.0 <= c && d < 1.0 {
      if d < LinearLimit {
        ClampByteMonotone(12.92 * c, 12.92 * d);
      } else {
        var pd := pow(d, Exponent);
        assert pow(LinearLimit, Exponent) <= pd;
        var low := 1.055 * pow(LinearLimit, Exponent) - 0.055;
        assert 10.0 <= low * 255.0;
        if c < LinearLimit {
          assert EncodeGamma(pow, c) <= 10;
          ClampByteMonotone(low, 1.055 * pd - 0.055);
          assert ClampByte(low) >= 10;
        } else {
          var pc := pow(c, Exponent);
          assert pc <= pd;
          ClampByteMonotone(1.055 * pc - 0.055, 1.055 * pd - 0.055);
        }
      }
    }
  }

  /** The three bytes of a pixel in the file: blue, green, red. */
  function PixelBytes(pow: (real, real) -> real, c: C.Color): (r: seq<B.byte>)
    ensures |r| == 3
    ensures r[0] == EncodeGamma(pow, C.Channel(c, 2)) && r[1] == EncodeGamma(pow, C.Channel(c, 1))
            && r[2] == EncodeGamma(pow, C.Channel(c, 0))
  {
    [EncodeGamma(pow, c.b), EncodeGamma(pow, c.g), EncodeGamma(pow, c.r)]
  }

  /** The bytes `Save` packs for the given pixels, in order. */
  function Packed(pow: (real, real) -> real, pixels: seq<C.Color>): seq<B.byte>
    decreases |pixels|
  {
    if |pixels| == 0 then []
    else Packed(pow, pixels[..|pixels| - 1]) + PixelBytes(pow, pixels[|pixels| - 1])
  }

  /**
   * Pixel `p` becomes bytes `3p`, `3p + 1` and `3p + 2`: its blue, green and
   * red channels, encoded; alpha is dropped.
   */
  lemma PackedLayout(pow: (real, real) -> real, pixels: seq<C.Color>)
    ensures |Packed(pow, pixels)| == 3 * |pixels|
    ensures forall p :: 0 <= p < |pixels| ==> Packed(pow, pixels)[3 * p..3 * p + 3] == PixelBytes(pow, pixels[p])
  {
    PackedLength(pow, pixels);
    forall p | 0 <= p < |pixels|
      ensures Packed(pow, pixels)[3 * p..3 * p + 3] == PixelBytes(pow, pixels[p])
    {
      PackedAt(pow, pixels, p);
    }
  }

  /** Three bytes per pixel. */
  lemma {:induction false} PackedLength(pow: (real, real) -> real, pixels: seq<C.Color>)
    ensures |Packed(pow, pixels)| == 3 * |pixels|
    decreases |pixels|
  {
    if |pixels| > 0 {
      PackedLength(pow, pixels[..|pixels| - 1]);
    }
  }

  /** Pixel `p`'s bytes are those at `3p`, `3p + 1` and `3p + 2`. */
  lemma {:induction false} PackedAt(pow: (real, real) -> real, pixels: seq<C.Color>, p: nat)
    requires p < |pixels|
    ensures 3 * p + 3 <= |Packed(pow, pixels)|
    ensures Packed(pow, pixels)[3 * p..3 * p + 3] == PixelBytes(pow, pixels[p])
    decreases |pixels|
  {
    var n := |pixels| - 1;
    var init := pixels[..n];
    var head, last := Packed(pow, init), PixelBytes(pow, pixels[n]);
    PackedLength(pow, init);
    assert Packed(pow, pixels) == head + last;
    TripleOfConcat(head, last, n, p);
    if p < n {
      PackedAt(pow, init, p);
      assert pixels[p] == init[p];
    }
  }

  /**
   * Triple `p` of `n` triples followed by one more: a triple of the front
   * part, or the last one.
   */
  lemma TripleOfConcat<T>(front: seq<T>, back: seq<T>, n: nat, p: nat)
    requires |front| == 3 * n && |back| == 3 && p <= n
    ensures p < n ==> (front + back)[3 * p..3 * p + 3] == front[3 * p..3 * p + 3]
    ensures p == n ==> (front + back)[3 * p..3 * p + 3] == back
  {
    if p == n {
      assert (front + back)[|front|..] == back;
    }
  }

  /** Bytes that pack all of `pixels` as a prefix of their own length are the packing. */
  lemma PackedWhole(pow: (real, real) -> real, data: seq<B.byte>, pixels: seq<C.Color>)
    requires |data| == 3 * |pixels| && data[..3 * |pixels|] == Packed(pow, pixels[..|pixels|])
    ensures data == Packed(pow, pixels)
  {
    assert data[..3 * |pixels|] == data;
    assert pixels[..|pixels|] == pixels;
  }

  /** Packing one more pixel appends its three bytes. */
  lemma PackedStep(pow: (real, real) -> real, pixels: seq<C.Color>, p: nat)
    requires p < |pixels|
    ensures Packed(pow, pixels[..p + 1]) == Packed(pow, pixels[..p]) + PixelBytes(pow, pixels[p])
  {
    assert pixels[..p + 1][..p] == pixels[..p];
  }

  /** The body of `Save`'s inner loop: pixel `p`'s blue, green and red bytes at `3p`, `3p + 1`, `3p + 2`. */
  method PackPixel(pow: (real, real) -> real, data: array<B.byte>, p: nat, c: C.Color)
    requires 3 * p + 3 <= data.Length
    modifies data
    ensures data[..3 * p + 3] == old(data[..3 * p]) + PixelBytes(pow, c)
    ensures data[3 * p + 3..] == old(data[3 * p + 3..])
  {
    data[p * 3 + 0] := EncodeGamma(pow, c.b);
    data[p * 3 + 1] := EncodeGamma(pow, c.g);
    data[p * 3 + 2] := EncodeGamma(pow, c.r);
  }

  /** `a <= b` survives multiplying both sides by the same natural number. */
  lemma MulMonotone(a: nat, b: nat, w: nat)
    requires a <= b
    ensures a * w <= b * w
  {
    assert b * w == a * w + (b - a) * w;
  }

  /** Pixel `(ii, jj)` lies inside the buffer, and pixels come in row-major order. */
  lemma PixelIndex(width: nat, height: nat, ii: nat, jj: nat)
    requires ii < height && jj < width
    ensures ii * width + jj < width * height
    ensures ii * width + jj + 1 <= (ii + 1) * width
  {
    MulMonotone(ii + 1, height, width);
    assert (ii + 1) * width == ii * width + width;
    assert height * width == width * height;
  }

  /** Row `row` ends inside the buffer. */
  lemma RowBound(width: nat, height: nat, row: nat)
    requires row < height
    ensures row * width + width <= width * height
    ensures (row + 1) * width == row * width + width
  {
    MulMonotone(row + 1, height, width);
    assert (row + 1) * width == row * width + width;
    assert height * width == width * height;
  }

  /** The byte buffer of `Save` holds three bytes for each of the `height` rows of `width` pixels. */
  lemma BufferLength(width: nat, height: nat)
    ensures height * width == width * height && width * height * 3 == 3 * (height * width)
  {
  }

  /** A pixel of an earlier row, or earlier in the same row, has a smaller index. */
  lemma PixelOrder(width: nat, i: nat, j: nat, ii: nat, jj: nat)
    requires j < width && (i < ii || (i == ii && j < jj))
    ensures i * width + j < ii * width + jj
  {
    if i < ii {
      MulMonotone(i + 1, ii, width);
      assert (i + 1) * width == i * width + width;
    }
  }

  /** `Image`: the dimensions and the colours, row after row. */
  class Image {
    const width: nat
    const height: nat
    const pixels: array<C.Color>

    /** The buffer holds exactly one colour per pixel. */
    ghost predicate Valid()
    {
      pixels.Length == width * height
    }

    /** A new image: width * height colours, zero-initialised by the resize. */
    constructor(width: nat, height: nat)
      ensures this.width == width && this.height == height
      ensures Valid() && fresh(pixels)
      ensures forall i :: 0 <= i < pixels.Length ==> pixels[i] == C.Black
    {
      this.width := width;
      this.height := height;
      pixels := new C.Color[width * height](_ => C.Black);
    }

    /** `operator[](row)`: where row `row` starts; a row of the image lies inside the buffer. */
    function RowStart(row: nat): (start: nat)
      ensures row < height ==> start + width <= width * height
    {
      if row < height then RowBound(width, height, row); row * width
      else row * width
    }

    /** `(*this)[ii][jj]`: the colour of pixel (ii, jj). */
    function At(ii: nat, jj: nat): C.Color
      requires Valid() && ii < height && jj < width
      reads pixels
    {
      PixelIndex(width, height, ii, jj);
      pixels[RowStart(ii) + jj]
    }

    /** `(*this)[ii][jj] = c`: pixel (ii, jj) changes and no other. */
    method Set(ii: nat, jj: nat, c: C.Color)
      requires Valid() && ii < height && jj < width
      modifies pixels
      ensures At(ii, jj) == c
      ensures forall i, j :: 0 <= i < height && 0 <= j < width && (i != ii || j != jj) ==> At(i, j) == old(At(i, j))
    {
      PixelIndex(width, height, ii, jj);
      pixels[RowStart(ii) + jj] := c;
      forall i, j | 0 <= i < height && 0 <= j < width && (i, j) != (ii, jj)
        ensures At(i, j) == old(At(i, j))
      {
        PixelIndex(width, height, i, j);
        if i < ii || (i == ii && j < jj) {
          PixelOrder(width, i, j, ii, jj);
        } else {
          PixelOrder(width, ii, jj, i, j);
        }
      }
    }

    /**
     * `Save`: the pixels packed into bytes, then the writer's result, which
     * `Save` returns.
     */
    method Save(pow: (real, real) -> real, windows: bool, filename: string) returns (outcome: B.Outcome)
      requires Valid()
      ensures outcome == B.WriteBitmapBGR(windows, filename, width, height, Packed(pow, pixels[..]))
    {
      var data := Pack(pow);
      outcome := B.WriteBitmapBGR(windows, filename, width, height, data[..]);
    }

    /**
     * The byte packing of `Save`: a buffer of width * height * 3 bytes filled
     * row by row, each pixel's blue, green and red bytes written once, in
     * order.
     */
    method Pack(pow: (real, real) -> real) returns (data: array<B.byte>)
      requires Valid()
      ensures data[..] == Packed(pow, pixels[..])
    {
      data := new B.byte[width * height * 3];
      BufferLength(width, height);
      var ii, start := 0, 0;
      while ii < height
        invariant 0 <= ii <= height && start == ii * width
        invariant start <= pixels.Length && data.Length == 3 * pixels.Length
        invariant data[..3 * start] == Packed(pow, pixels[..start])
      {
        RowBound(width, height, ii);
        PackRow(pow, data, start);
        ii, start := ii + 1, start + width;
      }
      assert start == pixels.Length;
      PackedWhole(pow, data[..], pixels[..]);
    }

    /**
     * The inner loop of `Save`: the row of pixels from `start` on packed after
     * the pixels before it.
     */
    method PackRow(pow: (real, real) -> real, data: array<B.byte>, start: nat)
      requires data.Length == 3 * pixels.Length && start + width <= pixels.Length
      requires data[..3 * start] == Packed(pow, pixels[..start])
      modifies data
      ensures data[..3 * (start + width)] == Packed(pow, pixels[..start + width])
    {
      var jj := 0;
      while jj < width
        invariant 0 <= jj <= width
        invariant data[..3 * (start + jj)] == Packed(pow, pixels[..start + jj])
      {
        var p := start + jj;
        PackPixel(pow, data, p, pixels[p]);
        PackedStep(pow, pixels[..], p);
        assert pixels[..][..p] == pixels[..p] && pixels[..][..p + 1] == pixels[..p + 1];
        jj := jj + 1;
      }
    }
  }
}

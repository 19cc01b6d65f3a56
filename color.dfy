// The ray tracer's colour (src/trace/Color.h): four float channels r, g, b,
// a with lane-wise sum, product and scaling. Channels are reals here.

module Colors {

  /** A colour: red, green, blue and alpha. */
  datatype Color = Color(r: real, g: real, b: real, a: real)

  /** The colour every light contribution starts from. */
  const Black: Color := Color(0.0, 0.0, 0.0, 0.0)

  /** `operator[]`: channel `index` of the four consecutive floats r, g, b, a. */
  function Channel(c: Color, index: nat): (v: real)
    requires index < 4
    ensures index == 0 ==> v == c.r
    ensures index == 1 ==> v == c.g
    ensures index == 2 ==> v == c.b
    ensures index == 3 ==> v == c.a
  {
    if index == 0 then c.r else if index == 1 then c.g else if index == 2 then c.b else c.a
  }

  /** Two colours with the same four channels are the same colour. */
  lemma ChannelsDetermineColor(c: Color, d: Color)
    requires forall i :: 0 <= i < 4 ==> Channel(c, i) == Channel(d, i)
    ensures c == d
  {
    assert Channel(c, 0) == Channel(d, 0) && Channel(c, 1) == Channel(d, 1);
    assert Channel(c, 2) == Channel(d, 2) && Channel(c, 3) == Channel(d, 3);
  }

  /** `c + d`: channel-wise sums; the operands are values and stay as they were. */
  function Add(c: Color, d: Color): (r: Color)
    ensures forall i :: 0 <= i < 4 ==> Channel(r, i) == Channel(c, i) + Channel(d, i)
  {
    Color(c.r + d.r, c.g + d.g, c.b + d.b, c.a + d.a)
  }

  /** `c * d`: channel-wise products. */
  function Mul(c: Color, d: Color): (r: Color)
    ensures forall i :: 0 <= i < 4 ==> Channel(r, i) == Channel(c, i) * Channel(d, i)
  {
    Color(c.r * d.r, c.g * d.g, c.b * d.b, c.a * d.a)
  }

  /**
   * `c * s` for a float, and for a scalar type through `s.ToFloat()`: every
   * channel, alpha included, times `s`.
   */
  function Scale(c: Color, s: real): (r: Color)
    ensures forall i :: 0 <= i < 4 ==> Channel(r, i) == Channel(c, i) * s
  {
    Color(c.r * s, c.g * s, c.b * s, c.a * s)
  }

  /** Sums of colours commute, associate and have black as their unit. */
  lemma AddLaws(c: Color, d: Color, e: Color)
    ensures Add(c, d) == Add(d, c)
    ensures Add(Add(c, d), e) == Add(c, Add(d, e))
    ensures Add(c, Black) == c
  {
  }

  /** Scaling distributes over sums and scaling by 0 gives black. */
  lemma ScaleLaws(c: Color, d: Color, s: real)
    ensures Scale(Add(c, d), s) == Add(Scale(c, s), Scale(d, s))
    ensures Scale(c, 0.0) == Black
  {
  }

  /** Scaling twice scales by the product, and scaling a product scales one factor. */
  lemma ScaleComposes(c: Color, d: Color, s: real, t: real)
    ensures Scale(Scale(c, s), t) == Scale(c, s * t)
    ensures Scale(Mul(c, d), s) == Mul(Scale(c, s), d)
  {
    var x, y := Scale(Scale(c, s), t), Scale(c, s * t);
    assert x.r == y.r && x.g == y.g && x.b == y.b && x.a == y.a;
    var u, v := Scale(Mul(c, d), s), Mul(Scale(c, s), d);
    assert u.r == v.r && u.g == v.g && u.b == v.b && u.a == v.a;
  }

  /** A colour variable: the storage `+=` and the mutable `operator[]` write to. */
  class ColorCell {
    var value: Color

    constructor(c: Color)
      ensures value == c
    {
      value := c;
    }

    /** `+=`: adds `c` channel by channel in place and returns the cell itself, `*this`. */
    method AddAssign(c: Color) returns (self: ColorCell)
      modifies this
      ensures value == Add(old(value), c)
      ensures self == this
    {
      value := Color(value.r + c.r, value.g + c.g, value.b + c.b, value.a + c.a);
      self := this;
    }

    /** A write through the mutable `operator[]`: channel `index` changes and no other. */
    method SetChannel(index: nat, v: real)
      requires index < 4
      modifies this
      ensures Channel(value, index) == v
      ensures forall i :: 0 <= i < 4 && i != index ==> Channel(value, i) == Channel(old(value), i)
    {
      if index == 0 {
        value := value.(r := v);
      } else if index == 1 {
        value := value.(g := v);
      } else if index == 2 {
        value := value.(b := v);
      } else {
        value := value.(a := v);
      }
    }
  }

  /** Accumulating with `+=` gives the sum of the colours, in either order. */
  method AccumulateTwo(c: Color, d: Color) returns (sum: Color, swapped: Color)
    ensures sum == swapped == Add(c, d)
  {
    var cell := new ColorCell(Black);
    var chained := cell.AddAssign(c);
    chained := chained.AddAssign(d);
    sum := cell.value;
    var other := new ColorCell(Black);
    chained := other.AddAssign(d);
    chained := chained.AddAssign(c);
    swapped := other.value;
  }
}

/** ColorRGB.h: a colour is a Vector3 whose components are the red, green and blue
    channels; every operation is the Vector3 operation on the wrapped vector. */
module Colors {
  import opened Numerics
  import V = Vectors

  /** The private single-vector constructor. */
  datatype ColorRGB = ColorRGB(v: V.Vector3)
  {
    function R(): real { v.x }

    function G(): real { v.y }

    function B(): real { v.z }

    function Add(other: ColorRGB): ColorRGB { ColorRGB(V.Add(v, other.v)) }

    function AddScalar(s: real): ColorRGB { ColorRGB(V.AddScalar(v, s)) }

    function Subtract(other: ColorRGB): ColorRGB { ColorRGB(V.Subtract(v, other.v)) }

    function SubtractScalar(s: real): ColorRGB { ColorRGB(V.SubtractScalar(v, s)) }

    /** Scale every channel by a scalar. */
    function Scale(k: real): ColorRGB { ColorRGB(V.Scale(v, k)) }

    /** Scale channel by channel (the overload of scale taking a colour). */
    function Hadamard(other: ColorRGB): ColorRGB { ColorRGB(V.Hadamard(v, other.v)) }

    function Power(m: CMath, e: real): ColorRGB
      requires m.Valid()
    {
      ColorRGB(V.Power(m, v, e))
    }

    /** Channel-wise reciprocal, defined where no channel is zero. */
    function Inv(): (c: ColorRGB)
      requires R() != 0.0 && G() != 0.0 && B() != 0.0
      ensures Hadamard(c) == Gray(1.0)
    {
      ColorRGB(V.Inv(v))
    }

    function Equals(other: ColorRGB): (b: bool)
      ensures b <==> this == other
    {
      V.Equals(v, other.v)
    }

    function IsZero(): (b: bool)
      ensures b <==> this == Gray(0.0)
    {
      R() == 0.0 && G() == 0.0 && B() == 0.0
    }
  }

  /** The three-channel constructor. */
  function Rgb(red: real, green: real, blue: real): (c: ColorRGB)
    ensures c.R() == red && c.G() == green && c.B() == blue
  {
    ColorRGB(V.Vector3(red, green, blue))
  }

  /** The explicit single-value constructor: a grey with every channel equal. */
  function Gray(u: real): (c: ColorRGB)
    ensures c.R() == u && c.G() == u && c.B() == u
  {
    ColorRGB(V.Uniform(u))
  }

  /** Every operation acts channel by channel, as the Vector3 operation it wraps. */
  lemma ChannelsComponentwise(c: ColorRGB, d: ColorRGB, s: real)
    ensures c.Add(d) == Rgb(c.R() + d.R(), c.G() + d.G(), c.B() + d.B())
    ensures c.AddScalar(s) == Rgb(c.R() + s, c.G() + s, c.B() + s)
    ensures c.Subtract(d) == Rgb(c.R() - d.R(), c.G() - d.G(), c.B() - d.B())
    ensures c.SubtractScalar(s) == Rgb(c.R() - s, c.G() - s, c.B() - s)
    ensures c.Scale(s) == Rgb(s * c.R(), s * c.G(), s * c.B())
    ensures c.Hadamard(d) == Rgb(c.R() * d.R(), c.G() * d.G(), c.B() * d.B())
  {
  }

  /** The double value clamped to [0, 1], times 255, truncated to an int. */
  function ConvertToByte(value: real): (b: int)
    ensures 0 <= b <= 255
    ensures value <= 0.0 ==> b == 0
    ensures value >= 1.0 ==> b == 255
    ensures 0.0 <= value <= 1.0 ==> b as real <= 255.0 * value < b as real + 1.0
  {
    (255.0 * Max(0.0, Min(1.0, value))).Floor
  }

  /** Pack the three channel bytes as 0xRRGGBB. The source's int is kept as its 32-bit pattern. */
  function ToRGB(c: ColorRGB): (rgb: bv32)
    ensures rgb < 0x100_0000
    ensures (rgb >> 16) & 0xFF == ConvertToByte(c.R()) as bv32
    ensures (rgb >> 8) & 0xFF == ConvertToByte(c.G()) as bv32
    ensures rgb & 0xFF == ConvertToByte(c.B()) as bv32
  {
    Pack(ConvertToByte(c.R()) as bv32, ConvertToByte(c.G()) as bv32, ConvertToByte(c.B()) as bv32)
  }

  function Pack(r: bv32, g: bv32, b: bv32): (rgb: bv32)
    requires r < 0x100 && g < 0x100 && b < 0x100
    ensures rgb < 0x100_0000
    ensures (rgb >> 16) & 0xFF == r && (rgb >> 8) & 0xFF == g && rgb & 0xFF == b
  {
    (r << 16) | (g << 8) | (b << 0)
  }
}

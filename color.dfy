// The four-channel colour (red, green, blue, alpha), each channel a real.

module Colors {

  /** The range of unsigned long on the 64-bit targets the program is built for. */
  const UnsignedLongLimit: nat := 0x1_0000_0000_0000_0000

  /** The channel unpacked from bits 24 - 8k to 31 - 8k of x: (x >> (24 - 8k)) & 255. */
  function PackedByte(x: nat, k: int): (v: nat)
    requires 0 <= k < 4
    ensures v < 256
  {
    (x / (if k == 0 then 0x100_0000 else if k == 1 then 0x1_0000 else if k == 2 then 0x100 else 1)) % 256
  }

  /** The packing that the unsigned long constructor reads back: red in the highest of the four low bytes. */
  function Pack(r: nat, g: nat, b: nat, a: nat): (x: nat)
    requires r < 256 && g < 256 && b < 256 && a < 256
    ensures x < 0x1_0000_0000
  {
    r * 0x100_0000 + g * 0x1_0000 + b * 0x100 + a
  }

  datatype Color = Color(r: real, g: real, b: real, a: real)
  {
    /** operator[]: channel i. */
    function At(i: int): real
      requires 0 <= i < 4
    {
      if i == 0 then r else if i == 1 then g else if i == 2 then b else a
    }

    /** operator+= : the channels after adding c in place. */
    function AddAssign(c: Color): (res: Color)
      ensures forall i :: 0 <= i < 4 ==> res.At(i) == At(i) + c.At(i)
    {
      this.(r := r + c.r, g := g + c.g, b := b + c.b, a := a + c.a)
    }

    /** Scale: the channelwise product, alpha included. */
    function Scale(c: Color): (res: Color)
      ensures forall i :: 0 <= i < 4 ==> res.At(i) == At(i) * c.At(i)
    {
      Color(r * c.r, g * c.g, b * c.b, a * c.a)
    }

    /** operator* (c, x): every channel, alpha included, multiplied by x. */
    function Mul(x: real): (res: Color)
      ensures forall i :: 0 <= i < 4 ==> res.At(i) == At(i) * x
    {
      Color(r * x, g * x, b * x, a * x)
    }

    /** operator/ (c, x): the product by the reciprocal 1 / x. */
    function Div(x: real): (res: Color)
      requires x != 0.0
      ensures forall i :: 0 <= i < 4 ==> res.At(i) * x == At(i)
    {
      DivChannel(r, x);
      DivChannel(g, x);
      DivChannel(b, x);
      DivChannel(a, x);
      Mul(1.0 / x)
    }
  }

  lemma DivChannel(v: real, x: real)
    requires x != 0.0
    ensures v * (1.0 / x) * x == v
  {
  }

  /** Color(v): a grey with r = g = b = v, opaque. Color() is Grey(0.0). */
  function Grey(v: real): (c: Color)
    ensures c.r == v && c.g == v && c.b == v && c.a == 1.0
  {
    Color(v, v, v, 1.0)
  }

  /** Color(r, g, b): the four-real constructor with its default alpha 1. */
  function Opaque(r: real, g: real, b: real): (c: Color)
    ensures c.a == 1.0 && c.r == r && c.g == g && c.b == b
  {
    Color(r, g, b, 1.0)
  }

  /** Color(unsigned long x): channel k is byte 3 - k of x divided by 255, so it lies in [0, 1]. */
  function FromPacked(x: nat): (c: Color)
    requires x < UnsignedLongLimit
    ensures forall k :: 0 <= k < 4 ==> c.At(k) == PackedByte(x, k) as real / 255.0
    ensures forall k :: 0 <= k < 4 ==> 0.0 <= c.At(k) <= 1.0
  {
    Color(PackedByte(x, 0) as real / 255.0, PackedByte(x, 1) as real / 255.0,
          PackedByte(x, 2) as real / 255.0, PackedByte(x, 3) as real / 255.0)
  }

  /** Color(int r, g, b, a): each channel divided by 255. */
  function FromInts(r: int, g: int, b: int, a: int): (c: Color)
    ensures c.Mul(255.0) == Color(r as real, g as real, b as real, a as real)
  {
    Color(r as real / 255.0, g as real / 255.0, b as real / 255.0, a as real / 255.0)
  }

  /** Color(int r, g, b) with the default alpha 255 is opaque. */
  lemma FromIntsDefaultAlpha(r: int, g: int, b: int)
    ensures FromInts(r, g, b, 255).a == 1.0
  {
  }

  /** Unpacking a packed quadruple of bytes gives the integer constructor's colour. */
  lemma {:induction false} PackedRoundTrip(r: nat, g: nat, b: nat, a: nat)
    requires r < 256 && g < 256 && b < 256 && a < 256
    ensures FromPacked(Pack(r, g, b, a)) == FromInts(r, g, b, a)
  {
    var x := Pack(r, g, b, a);
    assert x / 0x100_0000 == r by { DivPack(r, g * 0x1_0000 + b * 0x100 + a, 0x100_0000); }
    assert x / 0x1_0000 == r * 0x100 + g by {
      assert x == (r * 0x100 + g) * 0x1_0000 + (b * 0x100 + a);
      DivPack(r * 0x100 + g, b * 0x100 + a, 0x1_0000);
    }
    assert x / 0x100 == (r * 0x100 + g) * 0x100 + b by {
      assert x == ((r * 0x100 + g) * 0x100 + b) * 0x100 + a;
      DivPack((r * 0x100 + g) * 0x100 + b, a, 0x100);
    }
    assert PackedByte(x, 0) == r;
    assert PackedByte(x, 1) == g by { ModPack(r, g); }
    assert PackedByte(x, 2) == b by { ModPack(r * 0x100 + g, b); }
    assert PackedByte(x, 3) == a by { ModPack((r * 0x100 + g) * 0x100 + b, a); }
  }

  lemma DivPack(q: nat, rest: nat, d: nat)
    requires d == 0x100 || d == 0x1_0000 || d == 0x100_0000
    requires rest < d
    ensures (q * d + rest) / d == q
  {
    if d == 0x100 {
      assert (q * 0x100 + rest) / 0x100 == q;
    } else if d == 0x1_0000 {
      assert (q * 0x1_0000 + rest) / 0x1_0000 == q;
    } else {
      assert (q * 0x100_0000 + rest) / 0x100_0000 == q;
    }
  }

  lemma ModPack(q: nat, low: nat)
    requires low < 256
    ensures (q * 0x100 + low) % 256 == low
  {
  }

  /** Lerp(t, a, b): the channelwise (1 - t) a + t b. */
  function Lerp(t: real, a: Color, b: Color): Color
  {
    Color((1.0 - t) * a.r + t * b.r, (1.0 - t) * a.g + t * b.g,
          (1.0 - t) * a.b + t * b.b, (1.0 - t) * a.a + t * b.a)
  }

  /** operator+ */
  function Add(u: Color, v: Color): (c: Color)
    ensures forall i :: 0 <= i < 4 ==> c.At(i) == u.At(i) + v.At(i)
  {
    Color(u.r + v.r, u.g + v.g, u.b + v.b, u.a + v.a)
  }

  /** operator- */
  function Sub(u: Color, v: Color): (c: Color)
    ensures forall i :: 0 <= i < 4 ==> c.At(i) == u.At(i) - v.At(i)
  {
    Color(u.r - v.r, u.g - v.g, u.b - v.b, u.a - v.a)
  }

  /** operator* (x, c): the same as c * x. */
  function MulLeft(x: real, c: Color): (res: Color)
    ensures res == c.Mul(x)
  {
    c.Mul(x)
  }

  /** Lerp at 0 and 1 gives the end colours on all four channels, and it is (1 - t) a + t b. */
  lemma LerpProperties(t: real, a: Color, b: Color)
    ensures Lerp(0.0, a, b) == a && Lerp(1.0, a, b) == b
    ensures Lerp(t, a, b) == Add(MulLeft(1.0 - t, a), MulLeft(t, b))
  {
  }

  /** += leaves the same channels as +. */
  lemma AddAssignIsAdd(u: Color, v: Color)
    ensures u.AddAssign(v) == Add(u, v)
  {
  }

  /** Division is the product by the reciprocal; the two products agree; Sub undoes Add. */
  lemma ArithmeticProperties(c: Color, d: Color, x: real)
    requires x != 0.0
    ensures c.Div(x) == c.Mul(1.0 / x)
    ensures MulLeft(x, c) == c.Mul(x)
    ensures Sub(Add(c, d), d) == c
  {
  }
}

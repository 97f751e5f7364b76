/**
 * Saturating arithmetic on byte colour channels and its channel-wise lifting
 * to colours (ColorMixer/Extensions/ColorExtensions.cs).
 */
module ColorExtensions {

  /** The .NET `byte`: an unsigned 8-bit integer. */
  newtype byte = x: int | 0 <= x < 256

  const MaxValue: byte := 255
  const MinValue: byte := 0

  /** A WPF colour: alpha, red, green and blue channels, in the order of `Color.FromArgb`. */
  datatype Color = Color(a: byte, r: byte, g: byte, b: byte)

  /** `Colors.Black`: opaque, all colour channels zero. */
  const Black := Color(255, 0, 0, 0)

  function Min(x: int, y: int): int { if x <= y then x else y }
  function Max(x: int, y: int): int { if x >= y then x else y }

  /** `byte.Add`: the sum, clamped at 255 instead of wrapping around. */
  function AddByte(b: byte, value: byte): (r: byte)
    ensures r as int == Min(b as int + value as int, MaxValue as int)
  {
    var sum := b as int + value as int;
    if sum < MaxValue as int then sum as byte else MaxValue
  }

  /** `byte.Subtract`: the difference, clamped at 0 instead of wrapping around. */
  function SubtractByte(b: byte, value: byte): (r: byte)
    ensures r as int == Max(b as int - value as int, MinValue as int)
  {
    var diff := b as int - value as int;
    if diff > MinValue as int then diff as byte else MinValue
  }

  /** `Color.Add`: every channel, alpha included, is added on its own. */
  function Add(color: Color, value: Color): (r: Color)
    ensures r.r as int == Min(color.r as int + value.r as int, 255)
    ensures r.g as int == Min(color.g as int + value.g as int, 255)
    ensures r.b as int == Min(color.b as int + value.b as int, 255)
    ensures r.a as int == Min(color.a as int + value.a as int, 255)
  {
    Color(a := AddByte(color.a, value.a),
          r := AddByte(color.r, value.r),
          g := AddByte(color.g, value.g),
          b := AddByte(color.b, value.b))
  }

  /** `Color.Subtract`: every channel, alpha included, is subtracted on its own. */
  function Subtract(color: Color, value: Color): (r: Color)
    ensures r.r as int == Max(color.r as int - value.r as int, 0)
    ensures r.g as int == Max(color.g as int - value.g as int, 0)
    ensures r.b as int == Max(color.b as int - value.b as int, 0)
    ensures r.a as int == Max(color.a as int - value.a as int, 0)
  {
    Color(a := SubtractByte(color.a, value.a),
          r := SubtractByte(color.r, value.r),
          g := SubtractByte(color.g, value.g),
          b := SubtractByte(color.b, value.b))
  }

  // ---------------------------------------------------------------------
  // Properties of the byte operations

  /** Addition never wraps: the result stays at or above both operands. */
  lemma AddByteNeverWraps(x: byte, y: byte)
    ensures AddByte(x, y) >= x && AddByte(x, y) >= y
    ensures x as int + y as int <= 255 ==> AddByte(x, y) as int == x as int + y as int
    ensures x as int + y as int > 255 ==> AddByte(x, y) == 255
  {
  }

  lemma AddByteCommutes(x: byte, y: byte)
    ensures AddByte(x, y) == AddByte(y, x)
  {
  }

  lemma AddByteIdentity(x: byte)
    ensures AddByte(x, 0) == x && AddByte(0, x) == x
  {
  }

  /** Subtraction never wraps: the result stays at or below the left operand. */
  lemma SubtractByteNeverWraps(x: byte, y: byte)
    ensures SubtractByte(x, y) <= x
    ensures x >= y ==> SubtractByte(x, y) as int == x as int - y as int
    ensures x < y ==> SubtractByte(x, y) == 0
  {
  }

  lemma SubtractByteIdentity(x: byte)
    ensures SubtractByte(x, 0) == x
    ensures SubtractByte(x, x) == 0
  {
  }

  /** The worked values of ColorMixer.Tests/Extensions/Color.cs. */
  lemma ByteExamples()
    ensures AddByte(200, 100) == 255 && AddByte(100, 100) == 200
    ensures SubtractByte(100, 200) == 0 && SubtractByte(200, 100) == 100
  {
  }

  // ---------------------------------------------------------------------
  // Properties of the colour operations

  /** A channel of a sum or difference depends on that channel of the operands only. */
  lemma ChannelsIndependent(c1: Color, c2: Color, d1: Color, d2: Color)
    ensures c1.a == d1.a && c2.a == d2.a ==>
      Add(c1, c2).a == Add(d1, d2).a && Subtract(c1, c2).a == Subtract(d1, d2).a
    ensures c1.r == d1.r && c2.r == d2.r ==>
      Add(c1, c2).r == Add(d1, d2).r && Subtract(c1, c2).r == Subtract(d1, d2).r
    ensures c1.g == d1.g && c2.g == d2.g ==>
      Add(c1, c2).g == Add(d1, d2).g && Subtract(c1, c2).g == Subtract(d1, d2).g
    ensures c1.b == d1.b && c2.b == d2.b ==>
      Add(c1, c2).b == Add(d1, d2).b && Subtract(c1, c2).b == Subtract(d1, d2).b
  {
  }

  /** Alpha is treated like any other channel: two opaque colours add to an opaque
      colour and subtract to a fully transparent one. */
  lemma OpaqueAlpha(c1: Color, c2: Color)
    requires c1.a == 255 && c2.a == 255
    ensures Add(c1, c2).a == 255
    ensures Subtract(c1, c2).a == 0
  {
  }

  lemma AddCommutes(c1: Color, c2: Color)
    ensures Add(c1, c2) == Add(c2, c1)
  {
  }

  lemma SubtractSelfIsTransparentBlack(c: Color)
    ensures Subtract(c, c) == Color(0, 0, 0, 0)
  {
  }
}

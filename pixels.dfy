/** RGBA8888 pixels. The renderer stores a pixel as a 32-bit unsigned
    word with red in bits 24-31, green in bits 16-23, blue in bits 8-15
    and alpha in bits 0-7, and takes it apart with shifts and masks. The
    model keeps the four bytes; `Word` and `FromWord` are the packing and
    the unpacking, proved inverse to each other. */
module Pixels {
  import opened CArith

  type Byte = b: int | 0 <= b < 256
  type Word32 = w: int | 0 <= w < 0x1_0000_0000

  datatype Pixel = Rgba(red: Byte, green: Byte, blue: Byte, alpha: Byte)

  /** The neutral grey used for a missing texture and for the horizon rows. */
  const Grey: Pixel := Rgba(0x80, 0x80, 0x80, 0xFF)

  /** `(r << 24) | (g << 16) | (b << 8) | a`: the word a pixel is stored as. */
  function Word(c: Pixel): (w: Word32)
    ensures w / 0x100_0000 == c.red
  {
    var w := c.red * 0x100_0000 + c.green * 0x1_0000 + c.blue * 0x100 + c.alpha;
    Split24(w, c.red, c.green * 0x1_0000 + c.blue * 0x100 + c.alpha);
    w
  }

  /** `(w >> 24) & 0xFF`, `(w >> 16) & 0xFF`, `(w >> 8) & 0xFF`, `w & 0xFF`:
      the channels read back from a word. */
  function FromWord(w: Word32): Pixel
  {
    Rgba(w / 0x100_0000, (w / 0x1_0000) % 0x100, (w / 0x100) % 0x100, w % 0x100)
  }

  // Dividing a word split as q * 2^k + m (0 <= m < 2^k) by 2^k.
  lemma Split8(c: int, q: int, m: int)
    requires 0 <= m < 0x100 && c == q * 0x100 + m
    ensures c / 0x100 == q && c % 0x100 == m
  {
  }

  lemma Split16(c: int, q: int, m: int)
    requires 0 <= m < 0x1_0000 && c == q * 0x1_0000 + m
    ensures c / 0x1_0000 == q
  {
  }

  lemma Split24(c: int, q: int, m: int)
    requires 0 <= m < 0x100_0000 && c == q * 0x100_0000 + m
    ensures c / 0x100_0000 == q
  {
  }

  /** Unpacking the stored word gives every channel back. */
  lemma {:induction false} FromWordOfWord(c: Pixel)
    ensures FromWord(Word(c)) == c
  {
    var r: int, g: int, b: int, a: int := c.red, c.green, c.blue, c.alpha;
    var w := Word(c);
    Split8(w, r * 0x1_0000 + g * 0x100 + b, a);
    Split16(w, r * 0x100 + g, b * 0x100 + a);
    Split8(r * 0x1_0000 + g * 0x100 + b, r * 0x100 + g, b);
    Split8(r * 0x100 + g, r, g);
  }

  /** Packing the channels of a word gives the word back. */
  lemma {:induction false} WordOfFromWord(w: Word32)
    ensures Word(FromWord(w)) == w
  {
    var q1, q2, q3 := w / 0x100, w / 0x1_0000, w / 0x100_0000;
    assert w == q1 * 0x100 + w % 0x100;
    assert q1 == q2 * 0x100 + q1 % 0x100;
    assert q2 == q3 * 0x100 + q2 % 0x100;
  }

  /** Grey is the word 0x808080FF. */
  lemma GreyWord()
    ensures Word(Grey) == 0x808080FF
  {
  }

  /** Two pixels with the same four channels are the same pixel. */
  lemma ChannelsDetermine(c: Pixel, d: Pixel)
    requires c.red == d.red && c.green == d.green && c.blue == d.blue && c.alpha == d.alpha
    ensures c == d
  {
  }

  function Min255(v: int): int { if v > 255 then 255 else v }

  /** One colour channel scaled by a light factor, as the lighting code
      writes it: `(int)(c * f + bias)`, saturated at 255 and stored through
      a `(Uint8)` cast. The bias is 0.5 in the composite (rounding) and 0
      in the wall pass (truncation). */
  function ScaleChannel(c: Byte, f: real, bias: real): Byte
  {
    ToByte(Min255(Trunc(c as real * f + bias)))
  }

  /** For a non-negative factor and bias the channel is the scaled value
      rounded down and saturated at 255. */
  lemma ScaleChannelFloor(c: Byte, f: real, bias: real)
    requires f >= 0.0 && bias >= 0.0
    ensures ScaleChannel(c, f, bias) == Min255((c as real * f + bias).Floor)
  {
    NonNegScaled(c, f, bias);
  }

  /** A scaled value of 255 or more saturates the channel at 255. */
  lemma ScaleChannelSaturates(c: Byte, f: real, bias: real)
    requires c as real * f + bias >= 255.0
    ensures ScaleChannel(c, f, bias) == 255
  {
  }

  lemma NonNegScaled(c: Byte, f: real, bias: real)
    ensures f >= 0.0 && bias >= 0.0 ==> c as real * f + bias >= 0.0
  {
    if f >= 0.0 {
      assert c as real * f >= 0.0 * f;
    }
  }

  /** With a factor of one and a bias below one, a channel is unchanged. */
  lemma ScaleChannelUnit(c: Byte, bias: real)
    requires 0.0 <= bias < 1.0
    ensures ScaleChannel(c, 1.0, bias) == c
  {
  }

  /** A larger non-negative factor never gives a darker channel. */
  lemma {:induction false} ScaleChannelMonotone(c: Byte, f1: real, f2: real, bias: real)
    requires 0.0 <= f1 <= f2 && 0.0 <= bias
    ensures ScaleChannel(c, f1, bias) <= ScaleChannel(c, f2, bias)
  {
    var x1, x2 := c as real * f1 + bias, c as real * f2 + bias;
    assert x1 <= x2 by {
      assert c as real * f2 - c as real * f1 == c as real * (f2 - f1);
      assert c as real * (f2 - f1) >= 0.0 * (f2 - f1);
    }
    ScaleChannelFloor(c, f1, bias);
    ScaleChannelFloor(c, f2, bias);
    assert x1.Floor <= x2.Floor;
  }
}

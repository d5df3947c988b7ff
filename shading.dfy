/** The per-pixel colour rules of the renderer: the texel fetch with its
    wrap-around, the darkening by a factor, and the lit wall pixel. */
module Shading {
  import opened Wrappers
  import opened CArith
  import opened Pixels
  import opened Textures

  /** `raycaster_get_pixel_from_texture`: grey for a missing buffer;
      otherwise both coordinates are reduced with C's `%` and moved into
      [0, 64) by adding 64 to a negative remainder, and the texel at that
      row and column is returned. */
  function GetPixelFromTexture(tex: Option<TexturePixels>, texX: int, texY: int): (p: Pixel)
    ensures tex.None? ==> p == Grey
    ensures tex.Some? ==> p == tex.value[(texY % TextureSize) * TextureSize + texX % TextureSize]
  {
    match tex
    case None => Grey
    case Some(pixels) =>
      var rx := CRem64(texX);
      var ry := CRem64(texY);
      var tx := if rx < 0 then rx + TextureSize else rx;
      var ty := if ry < 0 then ry + TextureSize else ry;
      CRem64Fixup(texX);
      CRem64Fixup(texY);
      pixels[ty * TextureSize + tx]
  }

  /** The texel index lies in the buffer for every pair of coordinates. */
  lemma {:induction false} TexelIndexInRange(texX: int, texY: int)
    ensures 0 <= (texY % TextureSize) * TextureSize + texX % TextureSize < TextureSize * TextureSize
  {
    var ty := texY % TextureSize;
    assert 0 <= ty <= TextureSize - 1;
    assert ty * TextureSize <= (TextureSize - 1) * TextureSize;
  }

  /** The fetch repeats the texture every 64 texels along both axes, and
      inside one tile it reads row `texY`, column `texX`. */
  lemma TextureWraps(tex: Option<TexturePixels>, texX: int, texY: int)
    ensures GetPixelFromTexture(tex, texX + TextureSize, texY) == GetPixelFromTexture(tex, texX, texY)
    ensures GetPixelFromTexture(tex, texX, texY + TextureSize) == GetPixelFromTexture(tex, texX, texY)
    ensures tex.Some? && 0 <= texX < TextureSize && 0 <= texY < TextureSize ==>
              GetPixelFromTexture(tex, texX, texY) == tex.value[texY * TextureSize + texX]
  {
    ModShift(texX);
    ModShift(texY);
  }

  lemma ModShift(a: int)
    ensures (a + TextureSize) % TextureSize == a % TextureSize
  {
  }

  /** One channel of `raycaster_darken_color`: `(Uint8)(c * factor)`. */
  function DarkenChannel(c: Byte, factor: real): Byte
  {
    ToByte(Trunc(c as real * factor))
  }

  /** `raycaster_darken_color`: red, green and blue scaled by the factor;
      the alpha byte is copied. */
  function Darken(color: Pixel, factor: real): (d: Pixel)
    ensures d.alpha == color.alpha
    ensures d.red == DarkenChannel(color.red, factor)
    ensures d.green == DarkenChannel(color.green, factor)
    ensures d.blue == DarkenChannel(color.blue, factor)
  {
    Rgba(DarkenChannel(color.red, factor), DarkenChannel(color.green, factor),
         DarkenChannel(color.blue, factor), color.alpha)
  }

  /** A factor of one leaves a colour unchanged. */
  lemma DarkenUnit(color: Pixel)
    ensures Darken(color, 1.0) == color
  {
    ChannelsDetermine(Darken(color, 1.0), color);
  }

  /** A factor in [0, 1] never brightens a channel: each one is the
      scaled value rounded down. */
  lemma DarkenChannelBelow(c: Byte, factor: real)
    requires 0.0 <= factor <= 1.0
    ensures DarkenChannel(c, factor) == (c as real * factor).Floor <= c
  {
    NonNegScaled(c, factor, 0.0);
    ChannelBelow(c, factor);
  }

  /** So darkening by a factor in [0, 1] never brightens a colour. */
  lemma DarkenNeverBrightens(color: Pixel, factor: real)
    requires 0.0 <= factor <= 1.0
    ensures var d := Darken(color, factor);
            d.red <= color.red && d.green <= color.green && d.blue <= color.blue
  {
    DarkenChannelBelow(color.red, factor);
    DarkenChannelBelow(color.green, factor);
    DarkenChannelBelow(color.blue, factor);
  }

  lemma ChannelBelow(c: Byte, factor: real)
    ensures 0.0 <= factor <= 1.0 ==> c as real * factor <= c as real && (c as real * factor).Floor <= c
  {
    if 0.0 <= factor <= 1.0 {
      assert c as real * factor <= c as real * 1.0;
    }
  }

  /** The lit wall pixel: each colour channel times its column light
      factor, truncated, saturated at 255 and stored as a byte; alpha is
      copied. */
  function LitPixel(texel: Pixel, fr: real, fg: real, fb: real): (p: Pixel)
    ensures p.alpha == texel.alpha
    ensures p.red == ScaleChannel(texel.red, fr, 0.0)
    ensures p.green == ScaleChannel(texel.green, fg, 0.0)
    ensures p.blue == ScaleChannel(texel.blue, fb, 0.0)
  {
    Rgba(ScaleChannel(texel.red, fr, 0.0), ScaleChannel(texel.green, fg, 0.0),
         ScaleChannel(texel.blue, fb, 0.0), texel.alpha)
  }

  /** For non-negative factors every channel is min(255, floor(c * f)). */
  lemma LitPixelChannels(texel: Pixel, fr: real, fg: real, fb: real)
    requires fr >= 0.0 && fg >= 0.0 && fb >= 0.0
    ensures var p := LitPixel(texel, fr, fg, fb);
            && p.red == Min255((texel.red as real * fr).Floor)
            && p.green == Min255((texel.green as real * fg).Floor)
            && p.blue == Min255((texel.blue as real * fb).Floor)
  {
    ScaleChannelFloor(texel.red, fr, 0.0);
    ScaleChannelFloor(texel.green, fg, 0.0);
    ScaleChannelFloor(texel.blue, fb, 0.0);
  }

  /** Light factors of one leave the texel unchanged. */
  lemma LitPixelUnit(texel: Pixel)
    ensures LitPixel(texel, 1.0, 1.0, 1.0) == texel
  {
    var p := LitPixel(texel, 1.0, 1.0, 1.0);
    ScaleChannelUnit(texel.red, 0.0);
    ScaleChannelUnit(texel.green, 0.0);
    ScaleChannelUnit(texel.blue, 0.0);
    ChannelsDetermine(p, texel);
  }
}

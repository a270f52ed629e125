/** The colour of a band: the hue sweeps from red (0°) toward violet (300°)
    across the bands, the saturation is fixed, and the lightness rises with
    the intensity clamped to [0, 1]. The colour library's HSL → sRGB
    conversion is a parameter; the float-to-byte casts are modelled. */
module Colors {

  datatype Hsl = Hsl(hue: real, saturation: real, lightness: real)

  /** An sRGB colour with float channels, nominally in [0, 1]. */
  datatype Srgb = Srgb(red: real, green: real, blue: real)

  /** `f32::clamp(lo, hi)`, NaN aside. */
  function Clamp(x: real, lo: real, hi: real): (r: real)
    requires lo <= hi
    ensures lo <= r <= hi
    ensures lo <= x <= hi ==> r == x
  {
    if x < lo then lo else if x > hi then hi else x
  }

  /** The hue of a band, in degrees: band/64 of the way from 0 to 300. */
  function Hue(band: nat): (h: real)
    ensures 0.0 <= h
    ensures band < 64 ==> h < 300.0
  {
    (band as real / 64.0) * 300.0
  }

  /** The lightness for an intensity: 0.3 plus 0.4 times the clamped intensity. */
  function Lightness(intensity: real): (l: real)
    ensures 0.3 <= l <= 0.7
  {
    0.3 + Clamp(intensity, 0.0, 1.0) * 0.4
  }

  /** The HSL colour `band_to_color` converts. */
  function BandHsl(band: nat, intensity: real): (c: Hsl)
    ensures c.saturation == 0.9
    ensures 0.3 <= c.lightness <= 0.7
    ensures band < 64 ==> 0.0 <= c.hue < 300.0
  {
    Hsl(Hue(band), 0.9, Lightness(intensity))
  }

  /** `(x * 255.0) as u8`: truncation toward zero, saturating at 0 and 255. */
  function ChannelByte(x: real): (b: nat)
    ensures b <= 255
    ensures 0.0 <= x <= 1.0 ==> b as real <= x * 255.0 < b as real + 1.0
  {
    var v := x * 255.0;
    if v <= 0.0 then 0 else if v >= 255.0 then 255 else v.Floor
  }

  /** `band_to_color`: the 8-bit RGB triple of a band at an intensity. */
  function BandToColor(band: nat, intensity: real, toSrgb: Hsl -> Srgb): (rgb: (nat, nat, nat))
    ensures rgb.0 <= 255 && rgb.1 <= 255 && rgb.2 <= 255
  {
    var c := toSrgb(BandHsl(band, intensity));
    (ChannelByte(c.red), ChannelByte(c.green), ChannelByte(c.blue))
  }

  /** Band 0 is pure red in hue, and the hue strictly increases with the band. */
  lemma HueIncreasing(b1: nat, b2: nat)
    requires b1 < b2
    ensures Hue(0) == 0.0
    ensures Hue(b1) < Hue(b2)
  {
  }

  /** Lightness strictly increases with the intensity on [0, 1]. */
  lemma LightnessIncreasing(x: real, y: real)
    requires 0.0 <= x < y <= 1.0
    ensures Lightness(x) < Lightness(y)
  {
  }

  /** Intensities below 0 look like 0 and intensities above 1 look like 1:
      only the clamped intensity reaches the colour. */
  lemma ColorUsesClampedIntensity(band: nat, intensity: real, toSrgb: Hsl -> Srgb)
    ensures intensity <= 0.0 ==> BandToColor(band, intensity, toSrgb) == BandToColor(band, 0.0, toSrgb)
    ensures intensity >= 1.0 ==> BandToColor(band, intensity, toSrgb) == BandToColor(band, 1.0, toSrgb)
    ensures BandToColor(band, intensity, toSrgb) == BandToColor(band, Clamp(intensity, 0.0, 1.0), toSrgb)
  {
  }
}

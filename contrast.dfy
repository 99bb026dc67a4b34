/**
 * `getLuminance` and `getContrastRatio` of the contrast tests: the WCAG 2.0
 * definitions of relative luminance and contrast ratio. Arithmetic is on
 * exact reals; `Math.pow(x, 2.4)` is the parameter `pow`, a function from
 * [0,1] into [0,1].
 */
module Contrast {
  import opened Wrappers
  import opened Color

  type Unit = x: real | 0.0 <= x <= 1.0

  /** Stands for `x => Math.pow(x, 2.4)` on [0,1]. */
  type Power = Unit -> Unit

  /** The sRGB threshold below which a channel is linear. */
  const LINEAR_LIMIT: real := 0.03928

  /** The linear-light value of one 8-bit channel. */
  function Linearize(pow: Power, c: int): (v: Unit)
    requires 0 <= c < 256
    ensures c <= 10 ==> v == c as real / 255.0 / 12.92
    ensures c > 10 ==> v == pow((c as real / 255.0 + 0.055) / 1.055)
  {
    var x := c as real / 255.0;
    if x <= LINEAR_LIMIT then x / 12.92 else pow((x + 0.055) / 1.055)
  }

  /** Relative luminance of a colour string; a string that does not decode counts as 0. */
  function Luminance(pow: Power, hex: string): (l: Unit)
    ensures HexToRgb(hex).None? ==> l == 0.0
  {
    match HexToRgb(hex)
    case None => 0.0
    case Some(c) =>
      0.2126 * Linearize(pow, c.r) + 0.7152 * Linearize(pow, c.g) + 0.0722 * Linearize(pow, c.b)
  }

  function Max(a: real, b: real): real { if a >= b then a else b }
  function Min(a: real, b: real): real { if a <= b then a else b }

  /** The contrast ratio of two luminances: (lighter + 0.05) / (darker + 0.05). */
  function Ratio(l1: Unit, l2: Unit): (r: real)
    ensures 1.0 <= r <= 21.0
    ensures r == 1.0 <==> l1 == l2
  {
    var lighter, darker := Max(l1, l2), Min(l1, l2);
    RatioBounds(lighter, darker);
    (lighter + 0.05) / (darker + 0.05)
  }

  lemma RatioBounds(lighter: Unit, darker: Unit)
    requires darker <= lighter
    ensures 1.0 <= (lighter + 0.05) / (darker + 0.05) <= 21.0
    ensures (lighter + 0.05) / (darker + 0.05) == 1.0 <==> lighter == darker
  {
    var q := (lighter + 0.05) / (darker + 0.05);
    assert q * (darker + 0.05) == lighter + 0.05;
    assert 21.0 * (darker + 0.05) >= lighter + 0.05;
  }

  function ContrastRatio(pow: Power, hex1: string, hex2: string): real
  {
    Ratio(Luminance(pow, hex1), Luminance(pow, hex2))
  }

  /** The ratio does not depend on the order of its arguments. */
  lemma ContrastSymmetric(pow: Power, hex1: string, hex2: string)
    ensures ContrastRatio(pow, hex1, hex2) == ContrastRatio(pow, hex2, hex1)
  {
  }

  /** Every ratio lies in [1, 21]; it is 1 exactly when the luminances agree. */
  lemma ContrastRange(pow: Power, hex1: string, hex2: string)
    ensures 1.0 <= ContrastRatio(pow, hex1, hex2) <= 21.0
    ensures ContrastRatio(pow, hex1, hex2) == 1.0 <==> Luminance(pow, hex1) == Luminance(pow, hex2)
  {
  }

  /** Channels 0 to 10 take the linear segment, 11 to 255 the power segment. */
  lemma LinearSegment(c: int)
    requires 0 <= c < 256
    ensures c as real / 255.0 <= LINEAR_LIMIT <==> c <= 10
  {
  }

  /** Black has luminance 0 whatever `pow` is. */
  lemma BlackIsDark(pow: Power)
    ensures Luminance(pow, "#000000") == 0.0
  {
    assert HexToRgb("#000000") == Some(Rgb(0, 0, 0));
  }

  /** White has luminance 1 when `pow` maps 1 to 1, as `Math.pow` does. */
  lemma WhiteIsLight(pow: Power)
    requires pow(1.0) == 1.0
    ensures Luminance(pow, "#FFFFFF") == 1.0
  {
    assert HexToRgb("#FFFFFF") == Some(Rgb(255, 255, 255));
  }

  /** A colour that does not decode is treated exactly like black. */
  lemma MalformedIsBlack(pow: Power, hex: string, other: string)
    requires HexToRgb(hex).None?
    ensures Luminance(pow, hex) == Luminance(pow, "#000000")
    ensures ContrastRatio(pow, hex, other) == ContrastRatio(pow, "#000000", other)
  {
    BlackIsDark(pow);
  }

  /** Black against white reaches the maximum ratio of 21. */
  lemma BlackOnWhite(pow: Power)
    requires pow(1.0) == 1.0
    ensures ContrastRatio(pow, "#000000", "#FFFFFF") == 21.0
  {
    BlackIsDark(pow);
    WhiteIsLight(pow);
  }
}

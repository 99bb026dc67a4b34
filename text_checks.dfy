/**
 * The substring tests on stylesheets: the logo gap, the Manrope font family
 * and the three font weights. A file that does not exist passes.
 */
module TextChecks {
  import opened Wrappers
  import opened Strings

  const LOGO_GAP: string := "gap: 6px"
  const BRAND_FONT: string := "Manrope"
  const FONT_WEIGHTS: seq<string> := [
    "--font-weight-bold: 800", "--font-weight-semibold: 600", "--font-weight-regular: 400"
  ]

  /** The gap test: the text anywhere in the stylesheet, not only inside a logo rule. */
  predicate GapOk(css: Option<string>)
  {
    css.None? || Contains(css.value, LOGO_GAP)
  }

  /** The font-family test. */
  predicate FontFamilyOk(css: Option<string>)
  {
    css.None? || Contains(css.value, BRAND_FONT)
  }

  /** The font-weight test, stopping at the first weight that is missing. */
  method CheckFontWeights(typography: Option<string>) returns (passed: bool)
    ensures passed <==> (typography.None? ||
      forall k :: 0 <= k < |FONT_WEIGHTS| ==> Contains(typography.value, FONT_WEIGHTS[k]))
  {
    if typography.None? {
      return true;
    }
    var text := typography.value;
    for k := 0 to |FONT_WEIGHTS|
      invariant forall j :: 0 <= j < k ==> Contains(text, FONT_WEIGHTS[j])
    {
      if !Contains(text, FONT_WEIGHTS[k]) {
        return false;
      }
    }
    return true;
  }

  /** The gap test passes on any stylesheet that has the declaration somewhere in it. */
  lemma GapAnywhere(before: string, after: string)
    ensures GapOk(Some(before + LOGO_GAP + after))
  {
    ContainsSelf(LOGO_GAP);
    ContainsInContext(before, LOGO_GAP, after, LOGO_GAP);
  }

  /** Any occurrence of the declaration counts, for example inside an unrelated rule's `row-gap: 6px`. */
  lemma GapMatchesRowGap()
    ensures GapOk(Some(".grid { row-gap: 6px; }"))
  {
    GapAnywhere(".grid { row-", "; }");
    assert ".grid { row-" + LOGO_GAP + "; }" == ".grid { row-gap: 6px; }";
  }

  /** A weight written with another value fails: "800" is part of the needle. */
  lemma WrongBoldWeightFails()
    ensures !Contains("--font-weight-bold: 700", FONT_WEIGHTS[0])
  {
    var s := "--font-weight-bold: 700";
    var t := FONT_WEIGHTS[0];
    assert |s| == |t|;
    assert s != t by { assert s[20] != t[20]; }
    assert !OccursAt(s, t, 0);
  }
}

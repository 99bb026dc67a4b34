/**
 * The brand tokens read from `colors.json`, and the approved palette the
 * compliance tests build from them.
 */
module Tokens {
  import opened Ascii

  datatype Combination = Combination(name: string, background: string, foreground: string)

  datatype BrandTokens = BrandTokens(
    primary: string, accent: string, black: string, white: string,
    gray100: string, gray300: string, gray500: string, gray700: string,
    success: string, warning: string, error: string,
    primaryLight: string, primaryDark: string,
    approvedCombinations: seq<Combination>)

  /** The thirteen token colours, in the order the palette test lists them. */
  function TokenColors(t: BrandTokens): (s: seq<string>)
    ensures |s| == 13
  {
    [t.primary, t.accent, t.black, t.white,
     t.gray100, t.gray300, t.gray500, t.gray700,
     t.success, t.warning, t.error,
     t.primaryLight, t.primaryDark]
  }

  /** `approvedColors`: the token colours mapped through `toLowerCase`. */
  function ApprovedColors(t: BrandTokens): (s: seq<string>)
    ensures |s| == |TokenColors(t)|
    ensures forall i :: 0 <= i < |s| ==> s[i] == Lower(TokenColors(t)[i])
  {
    var colors := TokenColors(t);
    seq(|colors|, i requires 0 <= i < |colors| => Lower(colors[i]))
  }

  /** A lower-cased string is approved exactly when it spells a token colour in some case. */
  lemma ApprovedColorsMembership(t: BrandTokens, c: string)
    ensures c in ApprovedColors(t) <==> exists i :: 0 <= i < 13 && Lower(TokenColors(t)[i]) == c
  {
  }
}

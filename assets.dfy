/**
 * The asset tests: logo fill counts, logo foreground colours, the required
 * asset names and the SVG size limit. The asset directory is `None` when it
 * does not exist, in which case every test passes; otherwise it is the list of
 * its entries.
 */
module Assets {
  import opened Wrappers
  import opened Ascii
  import opened Strings
  import opened Tokens
  import opened Scanner

  /** A file of the asset directory: its name, its text and its size in bytes. */
  datatype Entry = Entry(name: string, content: string, size: nat)

  type Directory = Option<seq<Entry>>

  predicate IsSvgFile(name: string)
  {
    EndsWith(name, ".svg")
  }

  /** The logo filter: a name with the `logo-` prefix and the `.svg` suffix. */
  predicate IsLogoFile(name: string)
  {
    StartsWith(name, "logo-") && EndsWith(name, ".svg")
  }

  /** Every logo is an SVG, and its prefix and suffix cannot share characters. */
  lemma LogoFileShape(name: string)
    requires IsLogoFile(name)
    ensures IsSvgFile(name)
    ensures |name| >= 9
  {
    var n := |name|;
    assert name[..5][4] == name[4];
    assert forall k :: n - 4 <= k < n ==> name[k] == name[n - 4..][k - (n - 4)];
  }

  /** Every logo file is an SVG file, so the size test also bounds every file the logo tests read. */
  lemma SizeTestCoversLogos(entries: seq<Entry>)
    requires forall k :: 0 <= k < |entries| && IsSvgFile(entries[k].name) ==> entries[k].size < 2048
    ensures forall k :: 0 <= k < |entries| && IsLogoFile(entries[k].name) ==> entries[k].size < 2048
  {
    forall k | 0 <= k < |entries| && IsLogoFile(entries[k].name) ensures entries[k].size < 2048 {
      LogoFileShape(entries[k].name);
    }
  }

  // ---- at most two distinct fills per logo --------------------------------

  const MAX_LOGO_FILLS: nat := 2

  /** Every fill attribute of an SVG, in order, as the global fill pattern finds them. */
  function Fills(svg: string): seq<string>
  {
    Scan(FillAttribute, svg, 0)
  }

  /** The distinct matched texts, quote style and letter case included. */
  function DistinctFills(svg: string): set<string>
  {
    set x | x in Fills(svg)
  }

  predicate FillCountOk(svg: string)
  {
    |DistinctFills(svg)| <= MAX_LOGO_FILLS
  }

  /** Three fill attributes at positions i, j and k with pairwise different texts. */
  predicate ThreeDistinctFills(svg: string, i: nat, j: nat, k: nat)
  {
    && MatchAt(FillAttribute, svg, i) && MatchAt(FillAttribute, svg, j) && MatchAt(FillAttribute, svg, k)
    && svg[i..i + 14] != svg[j..j + 14] && svg[i..i + 14] != svg[k..k + 14] && svg[j..j + 14] != svg[k..k + 14]
  }

  /** Three different attributes at any positions exceed the limit. */
  lemma ThreeFillsExceed(svg: string, i: nat, j: nat, k: nat)
    requires ThreeDistinctFills(svg, i, j, k)
    ensures !FillCountOk(svg)
  {
    MatchesAreScanned(FillAttribute, svg, i);
    MatchesAreScanned(FillAttribute, svg, j);
    MatchesAreScanned(FillAttribute, svg, k);
    var three := {svg[i..i + 14], svg[j..j + 14], svg[k..k + 14]};
    assert |three| == 3;
    SubsetCardinality(three, DistinctFills(svg));
  }

  lemma SubsetCardinality<T>(a: set<T>, b: set<T>)
    requires a <= b
    ensures |a| <= |b|
  {
    if a != {} {
      var x :| x in a;
      SubsetCardinality(a - {x}, b - {x});
    }
  }

  /** A limit exceeded has three different attributes in the text as witnesses. */
  lemma ExceededHasThreeFills(svg: string)
    requires !FillCountOk(svg)
    ensures exists i: nat, j: nat, k: nat :: ThreeDistinctFills(svg, i, j, k)
  {
    var fills := DistinctFills(svg);
    var a :| a in fills;
    assert |fills - {a}| == |fills| - 1;
    var b :| b in fills - {a};
    assert |fills - {a, b}| == |fills| - 2;
    var c :| c in fills - {a, b};
    ScannedAreMatches(FillAttribute, svg, a);
    ScannedAreMatches(FillAttribute, svg, b);
    ScannedAreMatches(FillAttribute, svg, c);
    var i :| 0 <= i < |svg| && MatchAt(FillAttribute, svg, i) && a == svg[i..i + 14];
    var j :| 0 <= j < |svg| && MatchAt(FillAttribute, svg, j) && b == svg[j..j + 14];
    var k :| 0 <= k < |svg| && MatchAt(FillAttribute, svg, k) && c == svg[k..k + 14];
    assert ThreeDistinctFills(svg, i, j, k);
  }

  /** The fill count is exceeded exactly when three positions spell three different attributes. */
  lemma FillCountOkIff(svg: string)
    ensures !FillCountOk(svg) <==> exists i: nat, j: nat, k: nat :: ThreeDistinctFills(svg, i, j, k)
  {
    if !FillCountOk(svg) {
      ExceededHasThreeFills(svg);
    }
    if exists i: nat, j: nat, k: nat :: ThreeDistinctFills(svg, i, j, k) {
      var i: nat, j: nat, k: nat :| ThreeDistinctFills(svg, i, j, k);
      ThreeFillsExceed(svg, i, j, k);
    }
  }

  /** The fill attribute `fill=<q>#<digits><q>`. */
  function FillText(q: char, digits: string): string
  {
    "fill=" + [q] + "#" + digits + [q]
  }

  lemma FillTextMatches(q: char, digits: string)
    requires IsQuote(q) && |digits| == 6 && AllHex(digits)
    ensures MatchAt(FillAttribute, FillText(q, digits), 0)
  {
    var f := FillText(q, digits);
    assert forall k :: 7 <= k < 13 ==> f[k] == digits[k - 7];
  }

  /** One colour written with both quote styles, or in two letter cases, counts three times. */
  lemma SpellingsCountSeparately()
    ensures !FillCountOk(FillText('"', "abcdef") + FillText('\'', "abcdef") + FillText('"', "ABCDEF"))
  {
    var a, b, c := FillText('"', "abcdef"), FillText('\'', "abcdef"), FillText('"', "ABCDEF");
    var svg := a + b + c;
    FillTextMatches('"', "abcdef");
    FillTextMatches('\'', "abcdef");
    FillTextMatches('"', "ABCDEF");
    FillMatchIsLocal(a, b + c, 0);
    assert svg == a + (b + c);
    FillMatchShift(a, b + c, 0);
    FillMatchIsLocal(b, c, 0);
    FillMatchShift(a + b, c, 0);
    assert svg[0..14] == a && svg[14..28] == b && svg[28..42] == c;
    assert a[5] != b[5] && a[7] != c[7] && b[5] != c[5];
    ThreeFillsExceed(svg, 0, 14, 28);
  }

  /** The logo fill-count test: every logo file has at most two distinct fills. */
  method CheckLogoFillCounts(dir: Directory) returns (passed: bool)
    ensures passed <==> (dir.None? ||
      forall k :: 0 <= k < |dir.value| && IsLogoFile(dir.value[k].name) ==> FillCountOk(dir.value[k].content))
  {
    if dir.None? {
      return true;
    }
    var entries := dir.value;
    for i := 0 to |entries|
      invariant forall k :: 0 <= k < i && IsLogoFile(entries[k].name) ==> FillCountOk(entries[k].content)
    {
      if IsLogoFile(entries[i].name) && |DistinctFills(entries[i].content)| > MAX_LOGO_FILLS {
        return false;
      }
    }
    return true;
  }

  // ---- the first fill is an approved foreground ---------------------------

  /**
   * The colour the foreground test judges (brand-compliance.test.js:136-138):
   * `#` and the six digits of the leftmost fill attribute, upper-cased.
   */
  function FirstFillColor(svg: string): (r: Option<string>)
    ensures r.Some? <==> Fills(svg) != []
    ensures r.Some? ==> |r.value| == 7 && r.value[0] == '#' && Upper(r.value) == r.value
  {
    FirstIsHeadOfScan(FillAttribute, svg);
    match First(FillAttribute, svg, 0)
    case None => None
    case Some(i) =>
      UpperIdempotent("#" + svg[i + 7..i + 13]);
      Some(Upper("#" + svg[i + 7..i + 13]))
  }

  /** The colour judged is that of the first attribute of the global fill scan. */
  lemma FirstFillIsFirstScanned(svg: string)
    requires Fills(svg) != []
    ensures |Fills(svg)[0]| == 14
    ensures FirstFillColor(svg) == Some(Upper(Fills(svg)[0][6..13]))
  {
    FirstIsHeadOfScan(FillAttribute, svg);
    var i := First(FillAttribute, svg, 0).value;
    var f := Fills(svg)[0];
    assert f == svg[i..i + 14];
    assert svg[i..i + 14][6..13] == svg[i + 6..i + 13];
    assert svg[i + 6..i + 13] == [svg[i + 6]] + svg[i + 7..i + 13];
  }

  /** Some approved combination has that colour as its foreground, up to case; an SVG without a fill passes. */
  predicate ForegroundOk(combos: seq<Combination>, svg: string)
  {
    var fill := FirstFillColor(svg);
    fill.None? || exists k :: 0 <= k < |combos| && Upper(combos[k].foreground) == fill.value
  }

  /**
   * Only the leftmost fill is judged: once a text has a fill attribute,
   * anything appended to it leaves the verdict unchanged.
   */
  lemma OnlyFirstFillJudged(combos: seq<Combination>, t: string, u: string)
    requires Fills(t) != []
    ensures ForegroundOk(combos, t + u) == ForegroundOk(combos, t)
  {
    FirstIsHeadOfScan(FillAttribute, t);
    FirstFillIgnoresSuffix(t, u);
    var i := First(FillAttribute, t, 0).value;
    assert (t + u)[i + 7..i + 13] == t[i + 7..i + 13];
  }

  /**
   * The verdict on the leftmost fill at position i: it passes iff some
   * combination's foreground equals its six digits up to letter case.
   */
  lemma ForegroundAtFirstFill(combos: seq<Combination>, svg: string, i: nat)
    requires MatchAt(FillAttribute, svg, i)
    requires forall j :: 0 <= j < i ==> !MatchAt(FillAttribute, svg, j)
    ensures ForegroundOk(combos, svg) <==>
      exists k :: 0 <= k < |combos| && Upper(combos[k].foreground) == Upper("#" + svg[i + 7..i + 13])
  {
    var r := First(FillAttribute, svg, 0);
    assert r.Some? && r.value == i;
  }

  /** The logo foreground test: every logo file's leftmost fill is an approved foreground. */
  method CheckLogoForegrounds(combos: seq<Combination>, dir: Directory) returns (passed: bool)
    ensures passed <==> (dir.None? ||
      forall k :: 0 <= k < |dir.value| && IsLogoFile(dir.value[k].name) ==> ForegroundOk(combos, dir.value[k].content))
  {
    if dir.None? {
      return true;
    }
    var entries := dir.value;
    for i := 0 to |entries|
      invariant forall k :: 0 <= k < i && IsLogoFile(entries[k].name) ==> ForegroundOk(combos, entries[k].content)
    {
      if IsLogoFile(entries[i].name) && !ForegroundOk(combos, entries[i].content) {
        return false;
      }
    }
    return true;
  }

  // ---- required assets ----------------------------------------------------

  const REQUIRED_ASSETS: seq<string> := [
    "logo-horizontal-blue.svg", "logo-horizontal-white.svg", "logo-horizontal-black.svg",
    "logo-stacked-blue.svg", "logo-stacked-white.svg", "logo-stacked-black.svg",
    "icon-blue.svg", "icon-white.svg", "icon-black.svg", "icon-lime.svg"
  ]

  /** The directory has an entry with the given name. */
  predicate HasFile(entries: seq<Entry>, name: string)
  {
    exists k :: 0 <= k < |entries| && entries[k].name == name
  }

  /** The required-assets test: every listed name exists in the directory. */
  method CheckRequiredAssets(dir: Directory) returns (passed: bool)
    ensures passed <==> dir.None? || forall a :: a in REQUIRED_ASSETS ==> HasFile(dir.value, a)
  {
    if dir.None? {
      return true;
    }
    var entries := dir.value;
    for i := 0 to |REQUIRED_ASSETS|
      invariant forall j :: 0 <= j < i ==> HasFile(entries, REQUIRED_ASSETS[j])
    {
      var found := false;
      for k := 0 to |entries|
        invariant found <==> exists m :: 0 <= m < k && entries[m].name == REQUIRED_ASSETS[i]
      {
        if entries[k].name == REQUIRED_ASSETS[i] {
          found := true;
        }
      }
      if !found {
        assert !HasFile(entries, REQUIRED_ASSETS[i]);
        assert REQUIRED_ASSETS[i] in REQUIRED_ASSETS;
        return false;
      }
    }
    return true;
  }

  /** The ten required names are all SVG files, so the size test covers each of them. */
  lemma RequiredAssetsAreSvg()
    ensures |REQUIRED_ASSETS| == 10
    ensures forall i :: 0 <= i < 10 ==> IsSvgFile(REQUIRED_ASSETS[i])
  {
  }

  // ---- size limit ---------------------------------------------------------

  const MAX_SVG_KB: real := 2.0

  /** The size in kilobytes, as a real quotient, is below two. */
  predicate UnderSizeLimit(size: nat)
  {
    (size as real) / 1024.0 < MAX_SVG_KB
  }

  /** The kilobyte comparison is a byte bound: at most 2047 bytes. */
  lemma UnderSizeLimitIff(size: nat)
    ensures UnderSizeLimit(size) <==> size < 2048
  {
    assert (size as real) / 1024.0 < 2.0 <==> (size as real) < 2048.0;
  }

  /** The size test: every SVG file of the directory is under 2 KB. */
  method CheckSvgSizes(dir: Directory) returns (passed: bool)
    ensures passed <==> (dir.None? ||
      forall k :: 0 <= k < |dir.value| && IsSvgFile(dir.value[k].name) ==> dir.value[k].size < 2048)
  {
    if dir.None? {
      return true;
    }
    var entries := dir.value;
    for i := 0 to |entries|
      invariant forall k :: 0 <= k < i && IsSvgFile(entries[k].name) ==> entries[k].size < 2048
    {
      UnderSizeLimitIff(entries[i].size);
      if IsSvgFile(entries[i].name) && !UnderSizeLimit(entries[i].size) {
        return false;
      }
    }
    return true;
  }
}

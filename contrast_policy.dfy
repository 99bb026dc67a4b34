/**
 * The thresholds the contrast tests apply: every approved combination at the
 * large-text minimum, five text pairs at the normal-text minimum, success and
 * error on white at the large-text minimum and warning on white at 2.5. Each
 * test compares with `toBeGreaterThanOrEqual`.
 */
module ContrastPolicy {
  import opened Tokens
  import opened Color
  import opened Contrast

  /** WCAG AA minimum for normal text. */
  const MIN_CONTRAST_NORMAL: real := 4.5
  /** WCAG AA minimum for large text. */
  const MIN_CONTRAST_LARGE: real := 3.0
  /** The relaxed minimum accepted for the warning colour. */
  const MIN_CONTRAST_WARNING: real := 2.5

  /** One test: its title, a background, a foreground and the ratio it must reach. */
  datatype Requirement = Requirement(name: string, background: string, foreground: string, minimum: real)

  function CombinationRequirement(c: Combination): Requirement
  {
    Requirement(c.name + " meets contrast requirements", c.background, c.foreground, MIN_CONTRAST_LARGE)
  }

  /** The text and semantic pairs, in the order the tests state them. */
  function FixedRequirements(t: BrandTokens): (rs: seq<Requirement>)
    ensures |rs| == 8
  {
    [ Requirement("Body text (Gray 700) on White has sufficient contrast", t.white, t.gray700, MIN_CONTRAST_NORMAL),
      Requirement("Secondary text (Gray 500) on White has sufficient contrast", t.white, t.gray500, MIN_CONTRAST_NORMAL),
      Requirement("Primary Blue on White has sufficient contrast", t.white, t.primary, MIN_CONTRAST_NORMAL),
      Requirement("White text on Black has sufficient contrast", t.black, t.white, MIN_CONTRAST_NORMAL),
      Requirement("Body text (Gray 700) on Gray 100 has sufficient contrast", t.gray100, t.gray700, MIN_CONTRAST_NORMAL),
      Requirement("Success green has sufficient contrast on white", t.white, t.success, MIN_CONTRAST_LARGE),
      Requirement("Error red has sufficient contrast on white", t.white, t.error, MIN_CONTRAST_LARGE),
      Requirement("Warning orange has sufficient contrast on white", t.white, t.warning, MIN_CONTRAST_WARNING) ]
  }

  /** Every test of the suite: one per approved combination, then the fixed pairs. */
  function Requirements(t: BrandTokens): (rs: seq<Requirement>)
    ensures |rs| == |t.approvedCombinations| + 8
  {
    var combos := t.approvedCombinations;
    seq(|combos|, i requires 0 <= i < |combos| => CombinationRequirement(combos[i])) + FixedRequirements(t)
  }

  /** A ratio function over colour strings; the suite uses `getContrastRatio`. */
  type Judge = (string, string) -> real

  /** `getContrastRatio` for a given `Math.pow`. */
  function ContrastOf(pow: Power): Judge
  {
    (hex1, hex2) => ContrastRatio(pow, hex1, hex2)
  }

  /** A test passes when the ratio reaches its minimum; equality passes. */
  predicate Meets(ratio: Judge, q: Requirement)
  {
    ratio(q.background, q.foreground) >= q.minimum
  }

  predicate AllMeet(ratio: Judge, rs: seq<Requirement>)
  {
    forall i :: 0 <= i < |rs| ==> Meets(ratio, rs[i])
  }

  /** The whole suite passes when every one of its tests does. */
  predicate SuitePasses(ratio: Judge, t: BrandTokens)
  {
    AllMeet(ratio, Requirements(t))
  }

  lemma AllMeetConcat(ratio: Judge, a: seq<Requirement>, b: seq<Requirement>)
    ensures AllMeet(ratio, a + b) <==> AllMeet(ratio, a) && AllMeet(ratio, b)
  {
    if AllMeet(ratio, a) && AllMeet(ratio, b) {
      forall i | 0 <= i < |a + b| ensures Meets(ratio, (a + b)[i]) {
        if i >= |a| { assert (a + b)[i] == b[i - |a|]; }
      }
    }
    if AllMeet(ratio, a + b) {
      forall i | 0 <= i < |a| ensures Meets(ratio, a[i]) {
        assert (a + b)[i] == a[i];
      }
      forall i | 0 <= i < |b| ensures Meets(ratio, b[i]) {
        assert (a + b)[|a| + i] == b[i];
      }
    }
  }

  lemma CombinationsTable(ratio: Judge, combos: seq<Combination>)
    ensures AllMeet(ratio, seq(|combos|, i requires 0 <= i < |combos| => CombinationRequirement(combos[i]))) <==>
      forall c :: c in combos ==> ratio(c.background, c.foreground) >= 3.0
  {
    var rs := seq(|combos|, i requires 0 <= i < |combos| => CombinationRequirement(combos[i]));
    if AllMeet(ratio, rs) {
      forall c | c in combos ensures ratio(c.background, c.foreground) >= 3.0 {
        var i :| 0 <= i < |combos| && combos[i] == c;
        assert Meets(ratio, rs[i]);
      }
    }
  }

  /** The pass condition of the suite, pair by pair, as a table of thresholds. */
  lemma SuiteTable(ratio: Judge, t: BrandTokens)
    ensures SuitePasses(ratio, t) <==>
      && (forall c :: c in t.approvedCombinations ==> ratio(c.background, c.foreground) >= 3.0)
      && ratio(t.white, t.gray700) >= 4.5
      && ratio(t.white, t.gray500) >= 4.5
      && ratio(t.white, t.primary) >= 4.5
      && ratio(t.black, t.white) >= 4.5
      && ratio(t.gray100, t.gray700) >= 4.5
      && ratio(t.white, t.success) >= 3.0
      && ratio(t.white, t.error) >= 3.0
      && ratio(t.white, t.warning) >= 2.5
  {
    var combos, f := t.approvedCombinations, FixedRequirements(t);
    var cs := seq(|combos|, i requires 0 <= i < |combos| => CombinationRequirement(combos[i]));
    AllMeetConcat(ratio, cs, f);
    CombinationsTable(ratio, combos);
    if AllMeet(ratio, f) {
      assert Meets(ratio, f[0]) && Meets(ratio, f[1]) && Meets(ratio, f[2]) && Meets(ratio, f[3]);
      assert Meets(ratio, f[4]) && Meets(ratio, f[5]) && Meets(ratio, f[6]) && Meets(ratio, f[7]);
    } else {
      var k :| 0 <= k < 8 && !Meets(ratio, f[k]);
      assert k == 0 || k == 1 || k == 2 || k == 3 || k == 4 || k == 5 || k == 6 || k == 7;
    }
  }

  /** A pair whose ratio is exactly at its minimum passes: the comparison is not strict. */
  lemma BoundaryPasses(ratio: Judge, q: Requirement)
    requires ratio(q.background, q.foreground) == q.minimum
    ensures Meets(ratio, q)
  {
  }

  /** With the true white and black tokens the white-on-black test passes. */
  lemma WhiteOnBlackPasses(pow: Power, t: BrandTokens)
    requires pow(1.0) == 1.0
    requires t.white == "#FFFFFF" && t.black == "#000000"
    ensures Meets(ContrastOf(pow), FixedRequirements(t)[3])
  {
    BlackOnWhite(pow);
    ContrastSymmetric(pow, "#000000", "#FFFFFF");
  }

  /** A token that does not decode counts as black, so against black it fails every minimum above 1. */
  lemma MalformedOnBlackFails(pow: Power, q: Requirement)
    requires HexToRgb(q.background).None? && q.foreground == "#000000"
    requires q.minimum > 1.0
    ensures !Meets(ContrastOf(pow), q)
  {
    MalformedIsBlack(pow, q.background, q.foreground);
    ContrastRange(pow, "#000000", "#000000");
  }
}

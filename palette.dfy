/**
 * The stylesheet palette test: every `#RRGGBB` literal the lexical scan finds
 * must, lower-cased, be a token colour or one of two tolerated greys. A
 * stylesheet that does not exist passes.
 */
module Palette {
  import opened Wrappers
  import opened Ascii
  import opened Color
  import opened Tokens
  import opened Scanner

  /** The border grey tolerated outside the token palette. */
  const BORDER_GREY: string := "#e5e5e5"
  /** The skeleton-loader grey tolerated outside the token palette. */
  const SKELETON_GREY: string := "#f0f0f0"

  /** Every colour literal of a stylesheet, in order, as the global literal pattern finds them. */
  function HexLiterals(css: string): seq<string>
  {
    Scan(HexLiteral, css, 0)
  }

  /** The approval test of one literal, with the border grey listed twice as in the test. */
  predicate IsApproved(approved: seq<string>, color: string)
  {
    var c := Lower(color);
    c in approved || c == BORDER_GREY || c == SKELETON_GREY || c == BORDER_GREY
  }

  /** The allow-list as a set: the lower-cased token colours and the two greys. */
  function AllowList(t: BrandTokens): set<string>
  {
    (set c | c in TokenColors(t) :: Lower(c)) + {BORDER_GREY, SKELETON_GREY}
  }

  /** A colour is approved iff its lower-cased form is on the allow-list. */
  lemma ApprovedIffAllowed(t: BrandTokens, color: string)
    ensures IsApproved(ApprovedColors(t), color) <==> Lower(color) in AllowList(t)
  {
    var c := Lower(color);
    var colors := TokenColors(t);
    if c in ApprovedColors(t) {
      var i :| 0 <= i < 13 && ApprovedColors(t)[i] == c;
      assert colors[i] in colors;
    }
    if c in set d | d in colors :: Lower(d) {
      var d :| d in colors && Lower(d) == c;
      var i :| 0 <= i < 13 && colors[i] == d;
      assert ApprovedColors(t)[i] == c;
    }
  }

  /** Approval ignores the case of the literal. */
  lemma ApprovalIgnoresCase(approved: seq<string>, color: string)
    ensures IsApproved(approved, Upper(color)) == IsApproved(approved, color)
    ensures IsApproved(approved, Lower(color)) == IsApproved(approved, color)
  {
    LowerOfUpper(color);
    LowerIdempotent(color);
  }

  /** The literals the loop pushes onto `unapprovedColors`, in scan order, duplicates kept. */
  function Unapproved(approved: seq<string>, found: seq<string>): seq<string>
  {
    if found == [] then []
    else
      var last := found[|found| - 1];
      Unapproved(approved, found[..|found| - 1]) + (if IsApproved(approved, last) then [] else [last])
  }

  lemma {:induction false} UnapprovedMembers(approved: seq<string>, found: seq<string>, x: string)
    ensures x in Unapproved(approved, found) <==> x in found && !IsApproved(approved, x)
  {
    if found != [] {
      var init := found[..|found| - 1];
      UnapprovedMembers(approved, init, x);
      assert found == init + [found[|found| - 1]];
    }
  }

  /** Every unapproved literal is kept as often as it occurs: duplicates are counted. */
  lemma {:induction false} UnapprovedCounts(approved: seq<string>, found: seq<string>, x: string)
    ensures multiset(Unapproved(approved, found))[x] ==
      if IsApproved(approved, x) then 0 else multiset(found)[x]
  {
    if found != [] {
      var init := found[..|found| - 1];
      UnapprovedCounts(approved, init, x);
      assert found == init + [found[|found| - 1]];
    }
  }

  lemma {:induction false} UnapprovedEmpty(approved: seq<string>, found: seq<string>)
    ensures Unapproved(approved, found) == [] <==> forall i :: 0 <= i < |found| ==> IsApproved(approved, found[i])
  {
    if found != [] {
      var init := found[..|found| - 1];
      UnapprovedEmpty(approved, init);
      assert forall i :: 0 <= i < |init| ==> init[i] == found[i];
    }
  }

  /** The test body for one stylesheet, `None` standing for a file that does not exist. */
  method CheckStylesheet(approved: seq<string>, css: Option<string>) returns (passed: bool, unapproved: seq<string>)
    ensures css.None? ==> unapproved == []
    ensures css.Some? ==> unapproved == Unapproved(approved, HexLiterals(css.value))
    ensures passed <==> unapproved == []
  {
    unapproved := [];
    if css.None? {
      return true, unapproved;
    }
    var found := HexLiterals(css.value);
    var i := 0;
    while i < |found|
      invariant 0 <= i <= |found|
      invariant unapproved == Unapproved(approved, found[..i])
    {
      assert found[..i + 1][..i] == found[..i];
      if !IsApproved(approved, found[i]) {
        unapproved := unapproved + [found[i]];
      }
      i := i + 1;
    }
    assert found[..i] == found;
    passed := |unapproved| == 0;
  }

  /** A stylesheet passes iff every literal the scan finds is approved. */
  predicate StylesheetPasses(approved: seq<string>, css: Option<string>)
  {
    css.None? || forall x :: x in HexLiterals(css.value) ==> IsApproved(approved, x)
  }

  /**
   * The same condition stated on the text: every `#` with six hex digits and a
   * word boundary after them spells an approved colour.
   */
  lemma StylesheetPassesOnText(approved: seq<string>, css: string)
    ensures StylesheetPasses(approved, Some(css)) <==>
      forall i :: 0 <= i < |css| && MatchAt(HexLiteral, css, i) ==> IsApproved(approved, css[i..i + 7])
  {
    if StylesheetPasses(approved, Some(css)) {
      forall i | 0 <= i < |css| && MatchAt(HexLiteral, css, i) ensures IsApproved(approved, css[i..i + 7]) {
        MatchesAreScanned(HexLiteral, css, i);
      }
    } else {
      var x :| x in HexLiterals(css) && !IsApproved(approved, x);
      ScannedAreMatches(HexLiteral, css, x);
    }
  }

  /** Every literal the scan finds is a well-formed colour. */
  lemma ScannedLiteralsDecode(css: string, x: string)
    requires x in HexLiterals(css)
    ensures IsHexColor(x) && x[0] == '#'
  {
    ScannedAreMatches(HexLiteral, css, x);
    var i :| 0 <= i < |css| && MatchAt(HexLiteral, css, i) && x == css[i..i + 7];
    assert forall k :: 1 <= k < 7 ==> x[k] == css[i + k];
  }

  /**
   * The palette test over the listed stylesheets, each given by its contents
   * or `None` when it does not exist. The test fails at the first stylesheet
   * with an unapproved literal.
   */
  method PaletteTest(t: BrandTokens, files: seq<Option<string>>) returns (passed: bool)
    ensures passed <==> forall i :: 0 <= i < |files| ==> StylesheetPasses(ApprovedColors(t), files[i])
  {
    var approved := ApprovedColors(t);
    for i := 0 to |files|
      invariant forall j :: 0 <= j < i ==> StylesheetPasses(approved, files[j])
    {
      var ok, unapproved := CheckStylesheet(approved, files[i]);
      if files[i].Some? {
        var found := HexLiterals(files[i].value);
        UnapprovedEmpty(approved, found);
        assert StylesheetPasses(approved, files[i]) <==> ok by {
          if ok {
            forall x | x in found ensures IsApproved(approved, x) {
              var k :| 0 <= k < |found| && found[k] == x;
            }
          }
        }
      }
      if !ok {
        return false;
      }
    }
    return true;
  }
}

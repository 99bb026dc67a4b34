/**
 * The two global regular expressions of the compliance tests, applied with
 * `String.prototype.match`: `/#[0-9A-Fa-f]{6}\b/g` for colour literals in a
 * stylesheet and `/fill=["']#[0-9A-Fa-f]{6}["']/g` for fill attributes in an
 * SVG. Neither pattern can match at a position inside one of its own
 * matches, so the engine's left-to-right search returns the text at every
 * match position, in order.
 */
module Scanner {
  import opened Wrappers
  import opened Ascii

  datatype Pattern = HexLiteral | FillAttribute

  /** Every match of a pattern has this length. */
  function Width(p: Pattern): nat
  {
    match p
    case HexLiteral => 7
    case FillAttribute => 14
  }

  /** The class `["']`. */
  predicate IsQuote(c: char) { c == '"' || c == '\'' }

  /** `\b` at position k: exactly one of the characters around k is a word character. */
  predicate WordBoundary(s: string, k: nat)
    requires k <= |s|
  {
    (k > 0 && IsWordChar(s[k - 1])) != (k < |s| && IsWordChar(s[k]))
  }

  /** The characters s[lo..hi] are all hex digits. */
  predicate HexRun(s: string, lo: nat, hi: nat)
    requires lo <= hi <= |s|
  {
    forall k :: lo <= k < hi ==> IsHexDigit(s[k])
  }

  /** The pattern matches the text starting at position i. */
  predicate MatchAt(p: Pattern, s: string, i: nat)
  {
    && i + Width(p) <= |s|
    && match p
       case HexLiteral =>
         s[i] == '#' && HexRun(s, i + 1, i + 7) && WordBoundary(s, i + 7)
       case FillAttribute =>
         && s[i] == 'f' && s[i + 1] == 'i' && s[i + 2] == 'l' && s[i + 3] == 'l' && s[i + 4] == '='
         && IsQuote(s[i + 5]) && s[i + 6] == '#'
         && HexRun(s, i + 7, i + 13) && IsQuote(s[i + 13])
  }

  /**
   * `s.match(p)` from position i: try the pattern at i; after a match resume
   * at its end, otherwise one character further on.
   */
  function Scan(p: Pattern, s: string, i: nat): seq<string>
    decreases |s| - i
  {
    if i >= |s| then []
    else if MatchAt(p, s, i) then [s[i..i + Width(p)]] + Scan(p, s, i + Width(p))
    else Scan(p, s, i + 1)
  }

  /** All positions from i at which the pattern matches, in increasing order. */
  function Positions(p: Pattern, s: string, i: nat): (ps: seq<nat>)
    decreases |s| - i
    ensures forall k :: 0 <= k < |ps| ==> i <= ps[k] && ps[k] + Width(p) <= |s|
  {
    if i >= |s| then [] else (if MatchAt(p, s, i) then [i] else []) + Positions(p, s, i + 1)
  }

  /** Positions lists match positions from i, each in range, and every such position. */
  lemma {:induction false} PositionsExact(p: Pattern, s: string, i: nat)
    ensures forall k :: 0 <= k < |Positions(p, s, i)| ==>
      i <= Positions(p, s, i)[k] < |s| && MatchAt(p, s, Positions(p, s, i)[k])
    ensures forall j :: i <= j < |s| && MatchAt(p, s, j) ==> j in Positions(p, s, i)
    decreases |s| - i
  {
    if i < |s| {
      PositionsExact(p, s, i + 1);
    }
  }

  /** Positions are listed left to right. */
  lemma {:induction false} PositionsIncrease(p: Pattern, s: string, i: nat)
    ensures forall a, b :: 0 <= a < b < |Positions(p, s, i)| ==> Positions(p, s, i)[a] < Positions(p, s, i)[b]
    decreases |s| - i
  {
    if i < |s| {
      PositionsExact(p, s, i + 1);
      PositionsIncrease(p, s, i + 1);
    }
  }

  /** No match starts strictly inside another match. */
  lemma NoOverlap(p: Pattern, s: string, i: nat, k: nat)
    requires MatchAt(p, s, i)
    requires i < k < i + Width(p)
    ensures !MatchAt(p, s, k)
  {
  }

  /** Positions where nothing matches can be skipped. */
  lemma {:induction false} SkipNonMatches(p: Pattern, s: string, i: nat, j: nat)
    requires i <= j <= |s|
    requires forall k :: i <= k < j ==> !MatchAt(p, s, k)
    ensures Positions(p, s, i) == Positions(p, s, j)
    decreases j - i
  {
    if i < j {
      SkipNonMatches(p, s, i + 1, j);
    }
  }

  /** The text of width w at each of the given positions. */
  function Texts(s: string, ps: seq<nat>, w: nat): (ts: seq<string>)
    requires forall k :: 0 <= k < |ps| ==> ps[k] + w <= |s|
  {
    if ps == [] then [] else [s[ps[0]..ps[0] + w]] + Texts(s, ps[1..], w)
  }

  lemma {:induction false} TextsAt(s: string, ps: seq<nat>, w: nat)
    requires forall k :: 0 <= k < |ps| ==> ps[k] + w <= |s|
    ensures |Texts(s, ps, w)| == |ps|
    ensures forall k :: 0 <= k < |ps| ==> Texts(s, ps, w)[k] == s[ps[k]..ps[k] + w]
  {
    if ps != [] {
      TextsAt(s, ps[1..], w);
    }
  }

  /** After a match, the positions resume at its end. */
  lemma PositionsAfterMatch(p: Pattern, s: string, i: nat)
    requires MatchAt(p, s, i)
    ensures Positions(p, s, i) == [i] + Positions(p, s, i + Width(p))
  {
    forall k | i + 1 <= k < i + Width(p) ensures !MatchAt(p, s, k) {
      NoOverlap(p, s, i, k);
    }
    SkipNonMatches(p, s, i + 1, i + Width(p));
  }

  /** The scan returns the text at each match position, in order. */
  lemma {:induction false} ScanIsEveryMatch(p: Pattern, s: string, i: nat)
    ensures Scan(p, s, i) == Texts(s, Positions(p, s, i), Width(p))
    decreases |s| - i
  {
    if i < |s| {
      var w := Width(p);
      if MatchAt(p, s, i) {
        PositionsAfterMatch(p, s, i);
        ScanIsEveryMatch(p, s, i + w);
        var rest := Positions(p, s, i + w);
        assert ([i] + rest)[1..] == rest;
        assert Texts(s, [i] + rest, w) == [s[i..i + w]] + Texts(s, rest, w);
      } else {
        ScanIsEveryMatch(p, s, i + 1);
        assert Positions(p, s, i) == Positions(p, s, i + 1);
      }
    }
  }

  /** Every scanned string is a match of the pattern. */
  lemma ScannedAreMatches(p: Pattern, s: string, x: string)
    requires x in Scan(p, s, 0)
    ensures exists i :: 0 <= i < |s| && MatchAt(p, s, i) && x == s[i..i + Width(p)]
  {
    ScanIsEveryMatch(p, s, 0);
    TextsAt(s, Positions(p, s, 0), Width(p));
    PositionsExact(p, s, 0);
    var k :| 0 <= k < |Scan(p, s, 0)| && Scan(p, s, 0)[k] == x;
    var i := Positions(p, s, 0)[k];
    assert MatchAt(p, s, i);
  }

  /** Every match of the pattern is among the scanned strings. */
  lemma MatchesAreScanned(p: Pattern, s: string, i: nat)
    requires MatchAt(p, s, i)
    ensures s[i..i + Width(p)] in Scan(p, s, 0)
  {
    ScanIsEveryMatch(p, s, 0);
    TextsAt(s, Positions(p, s, 0), Width(p));
    PositionsExact(p, s, 0);
    var ps := Positions(p, s, 0);
    var k :| 0 <= k < |ps| && ps[k] == i;
    assert Scan(p, s, 0)[k] == s[i..i + Width(p)];
  }

  /** A literal followed by a word character, such as a seventh hex digit, is not matched. */
  lemma WordCharAfterLiteral(s: string, i: nat)
    requires i + 7 < |s| && IsWordChar(s[i + 7])
    ensures !MatchAt(HexLiteral, s, i)
  {
  }

  /** A `#` followed by seven or more hex digits yields no match there. */
  lemma SevenDigitsNoMatch(s: string, i: nat)
    requires i + 8 <= |s| && s[i] == '#' && HexRun(s, i + 1, i + 8)
    ensures !MatchAt(HexLiteral, s, i)
  {
    WordCharAfterLiteral(s, i);
  }

  /** A `#` and six hex digits at the end of the text or before a non-word character is matched. */
  lemma LiteralBeforeBoundary(s: string, i: nat)
    requires i + 7 <= |s| && s[i] == '#' && HexRun(s, i + 1, i + 7)
    requires i + 7 == |s| || !IsWordChar(s[i + 7])
    ensures MatchAt(HexLiteral, s, i)
  {
  }

  /** `s.match(p)` without the global flag: the leftmost match position from i. */
  function First(p: Pattern, s: string, i: nat): (r: Option<nat>)
    decreases |s| - i
    ensures r.Some? ==> i <= r.value < |s| && MatchAt(p, s, r.value)
    ensures r.Some? ==> forall j :: i <= j < r.value ==> !MatchAt(p, s, j)
    ensures r.None? ==> forall j :: i <= j < |s| ==> !MatchAt(p, s, j)
  {
    if i >= |s| then None
    else if MatchAt(p, s, i) then Some(i)
    else First(p, s, i + 1)
  }

  /** The leftmost match from i is the first of the match positions from i. */
  lemma {:induction false} FirstIsFirstPosition(p: Pattern, s: string, i: nat)
    ensures First(p, s, i) == if Positions(p, s, i) == [] then None else Some(Positions(p, s, i)[0])
    decreases |s| - i
  {
    if i < |s| && !MatchAt(p, s, i) {
      FirstIsFirstPosition(p, s, i + 1);
    }
  }

  /** The leftmost match is the first string of the global scan. */
  lemma FirstIsHeadOfScan(p: Pattern, s: string)
    ensures First(p, s, 0).None? <==> Scan(p, s, 0) == []
    ensures First(p, s, 0).Some? ==>
      var k := First(p, s, 0).value; Scan(p, s, 0)[0] == s[k..k + Width(p)]
  {
    ScanIsEveryMatch(p, s, 0);
    TextsAt(s, Positions(p, s, 0), Width(p));
    FirstIsFirstPosition(p, s, 0);
  }

  /** A fill attribute is judged on its own fourteen characters alone. */
  lemma FillMatchIsLocal(t: string, u: string, j: nat)
    requires j + 14 <= |t|
    ensures MatchAt(FillAttribute, t + u, j) == MatchAt(FillAttribute, t, j)
  {
    assert forall k :: j <= k < j + 14 ==> (t + u)[k] == t[k];
  }

  /** Text before a fill attribute does not change whether it matches. */
  lemma FillMatchShift(t: string, u: string, j: nat)
    ensures MatchAt(FillAttribute, t + u, |t| + j) == MatchAt(FillAttribute, u, j)
  {
    if j + 14 <= |u| {
      assert forall k :: j <= k < j + 14 ==> (t + u)[|t| + k] == u[k];
    }
  }

  /** Text after the first fill attribute cannot change which one is first. */
  lemma FirstFillIgnoresSuffix(t: string, u: string)
    requires First(FillAttribute, t, 0).Some?
    ensures First(FillAttribute, t + u, 0) == First(FillAttribute, t, 0)
  {
    var k := First(FillAttribute, t, 0).value;
    FillMatchIsLocal(t, u, k);
    forall j | 0 <= j < k ensures !MatchAt(FillAttribute, t + u, j) {
      FillMatchIsLocal(t, u, j);
    }
    var r := First(FillAttribute, t + u, 0);
    assert r.Some? && r.value == k by {
      assert MatchAt(FillAttribute, t + u, k);
    }
  }
}

/**
 * The hex colour decoder `hexToRgb` of the contrast tests: the regular
 * expression `/^#?([a-f\d]{2})([a-f\d]{2})([a-f\d]{2})$/i` followed by
 * `parseInt(pair, 16)` on each of the three captured pairs.
 */
module Color {
  import opened Ascii
  import opened Wrappers

  datatype Rgb = Rgb(r: int, g: int, b: int)

  predicate InRange(c: Rgb) { 0 <= c.r < 256 && 0 <= c.g < 256 && 0 <= c.b < 256 }

  /**
   * The strings the anchored pattern accepts: six hex digits, either alone or
   * after one `#`.
   */
  predicate IsHexColor(s: string)
  {
    || (|s| == 6 && AllHex(s))
    || (|s| == 7 && s[0] == '#' && AllHex(s[1..]))
  }

  /** What follows the optional leading `#`. */
  function Digits(s: string): string
  {
    if |s| > 0 && s[0] == '#' then s[1..] else s
  }

  /** `parseInt` of a two-digit hexadecimal string. */
  function PairValue(hi: char, lo: char): (v: int)
    requires IsHexDigit(hi) && IsHexDigit(lo)
    ensures 0 <= v < 256
  {
    16 * HexValue(hi) + HexValue(lo)
  }

  function HexToRgb(s: string): (c: Option<Rgb>)
    ensures c.Some? <==> IsHexColor(s)
    ensures c.Some? ==> InRange(c.value)
    ensures c.Some? ==>
      var d := Digits(s);
      && c.value.r == 16 * HexValue(d[0]) + HexValue(d[1])
      && c.value.g == 16 * HexValue(d[2]) + HexValue(d[3])
      && c.value.b == 16 * HexValue(d[4]) + HexValue(d[5])
  {
    var d := Digits(s);
    if |d| == 6 && AllHex(d) then
      Some(Rgb(PairValue(d[0], d[1]), PairValue(d[2], d[3]), PairValue(d[4], d[5])))
    else
      None
  }

  /** Two lower-case hex digits for a channel. */
  function HexPair(v: int): string
    requires 0 <= v < 256
  {
    [HexDigit(v / 16), HexDigit(v % 16)]
  }

  /** The `#rrggbb` spelling of a colour, in lower case. */
  function ToHex(c: Rgb): string
    requires InRange(c)
  {
    "#" + HexPair(c.r) + HexPair(c.g) + HexPair(c.b)
  }

  /** Encoding a colour and decoding it gives the colour back. */
  lemma DecodeEncoded(c: Rgb)
    requires InRange(c)
    ensures HexToRgb(ToHex(c)) == Some(c)
  {
    var s := ToHex(c);
    assert s[1..] == HexPair(c.r) + HexPair(c.g) + HexPair(c.b);
  }

  /** One hex pair decodes and re-encodes to its digits, lower-cased. */
  lemma EncodeDecodedPair(hi: char, lo: char)
    requires IsHexDigit(hi) && IsHexDigit(lo)
    ensures HexPair(PairValue(hi, lo)) == [LowerChar(hi), LowerChar(lo)]
  {
    var v := PairValue(hi, lo);
    assert v / 16 == HexValue(hi) && v % 16 == HexValue(lo);
    HexValueDeterminesLower(HexDigit(HexValue(hi)), hi);
    HexValueDeterminesLower(HexDigit(HexValue(lo)), lo);
  }

  /** Decoding and re-encoding reproduces the input's digits, lower-cased. */
  lemma EncodeDecoded(s: string)
    requires IsHexColor(s)
    ensures ToHex(HexToRgb(s).value) == "#" + Lower(Digits(s))
  {
    var d := Digits(s);
    var c := HexToRgb(s).value;
    assert c == Rgb(PairValue(d[0], d[1]), PairValue(d[2], d[3]), PairValue(d[4], d[5]));
    EncodeDecodedPair(d[0], d[1]);
    EncodeDecodedPair(d[2], d[3]);
    EncodeDecodedPair(d[4], d[5]);
    var l := Lower(d);
    assert l == [l[0], l[1]] + [l[2], l[3]] + [l[4], l[5]];
  }

  /** Case mapping keeps a string's hex digits, and their values, in place. */
  lemma CaseKeepsDigits(s: string, t: string)
    requires t == Lower(s) || t == Upper(s)
    ensures |t| == |s| && (AllHex(t) <==> AllHex(s))
    ensures forall k :: 0 <= k < |s| && IsHexDigit(s[k]) ==> HexValue(t[k]) == HexValue(s[k])
  {
    forall k | 0 <= k < |s| ensures IsHexDigit(s[k]) <==> IsHexDigit(t[k]) {
      CaseReflectsHexDigit(s[k]);
      if IsHexDigit(s[k]) { CaseKeepsHexValue(s[k]); }
    }
    forall k | 0 <= k < |s| && IsHexDigit(s[k]) ensures HexValue(t[k]) == HexValue(s[k]) {
      CaseKeepsHexValue(s[k]);
    }
  }

  /** Case mapping keeps the leading `#` and maps the digits after it. */
  lemma DigitsOfCase(s: string, t: string)
    requires t == Lower(s) || t == Upper(s)
    ensures Digits(t) == Lower(Digits(s)) || Digits(t) == Upper(Digits(s))
    ensures (|t| > 0 && t[0] == '#') <==> (|s| > 0 && s[0] == '#')
  {
    if |s| > 0 {
      assert t[0] == '#' <==> s[0] == '#';
      if s[0] == '#' {
        assert t[1..] == Lower(s[1..]) || t[1..] == Upper(s[1..]);
      }
    }
  }

  /** Under the `i` flag a case-mapped input decodes to the same colour. */
  lemma CaseInsensitiveWith(s: string, t: string)
    requires t == Lower(s) || t == Upper(s)
    ensures HexToRgb(t) == HexToRgb(s)
  {
    DigitsOfCase(s, t);
    var d, e := Digits(s), Digits(t);
    CaseKeepsDigits(d, e);
  }

  /** The `i` flag: lower- and upper-casing the input changes nothing. */
  lemma CaseInsensitive(s: string)
    ensures HexToRgb(Lower(s)) == HexToRgb(s)
    ensures HexToRgb(Upper(s)) == HexToRgb(s)
  {
    CaseInsensitiveWith(s, Lower(s));
    CaseInsensitiveWith(s, Upper(s));
  }

  /** Some strings the pattern refuses. */
  lemma RejectsMalformed()
    ensures HexToRgb("#fff") == None
    ensures HexToRgb("#ffffffff") == None
    ensures HexToRgb("##ffffff") == None
    ensures HexToRgb("#fffffg") == None
    ensures HexToRgb(" #ffffff") == None
    ensures HexToRgb("#ffffff\n") == None
  {
    assert !IsHexDigit('g');
    assert !IsHexDigit('#');
    assert !IsHexDigit(' ');
  }
}

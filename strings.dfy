/** The string primitives the tests use: `startsWith`, `endsWith`, `indexOf` and `includes`. */
module Strings {
  import opened Wrappers

  predicate StartsWith(s: string, prefix: string)
  {
    |prefix| <= |s| && s[..|prefix|] == prefix
  }

  predicate EndsWith(s: string, suffix: string)
  {
    |suffix| <= |s| && s[|s| - |suffix|..] == suffix
  }

  /** The needle t occurs in s starting at position i. */
  predicate OccursAt(s: string, t: string, i: nat)
  {
    i + |t| <= |s| && s[i..i + |t|] == t
  }

  /** `s.indexOf(t, i)`: the leftmost occurrence of t in s at or after i. */
  function IndexOf(s: string, t: string, i: nat): (r: Option<nat>)
    decreases |s| - i
    ensures r.Some? ==> i <= r.value && OccursAt(s, t, r.value)
    ensures r.Some? ==> forall j :: i <= j < r.value ==> !OccursAt(s, t, j)
    ensures r.None? ==> forall j :: i <= j ==> !OccursAt(s, t, j)
  {
    if i + |t| > |s| then None
    else if OccursAt(s, t, i) then Some(i)
    else IndexOf(s, t, i + 1)
  }

  /** `s.includes(t)`. */
  predicate Contains(s: string, t: string)
  {
    IndexOf(s, t, 0).Some?
  }

  /** `includes` holds exactly when the needle occurs somewhere. */
  lemma ContainsIff(s: string, t: string)
    ensures Contains(s, t) <==> exists i :: OccursAt(s, t, i)
  {
  }

  /** A needle found in a text is still found once text is added around it. */
  lemma ContainsInContext(u: string, s: string, v: string, t: string)
    requires Contains(s, t)
    ensures Contains(u + s + v, t)
  {
    var i := IndexOf(s, t, 0).value;
    assert (u + s + v)[|u| + i..|u| + i + |t|] == s[i..i + |t|];
    assert OccursAt(u + s + v, t, |u| + i);
  }

  /** Every text contains itself and the empty string. */
  lemma ContainsSelf(s: string)
    ensures Contains(s, s) && Contains(s, "")
  {
    assert OccursAt(s, s, 0);
    assert OccursAt(s, "", 0);
  }
}

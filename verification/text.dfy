/** The two string operations the search predicate is built from:
    lower-casing and substring containment. */
module Text {

  /** Lower-casing of a single character. Swift's `lowercased()` applies the
      Unicode case mapping; this model maps the ASCII capitals `A`-`Z` to
      their small letters and leaves every other character unchanged. All
      properties below rely only on `Lower` working character by character
      and being idempotent; Unicode mappings that change the length of a
      string or depend on the neighbouring characters are not modelled. */
  function LowerChar(c: char): char
  {
    if 'A' <= c <= 'Z' then (c as int - 'A' as int + 'a' as int) as char else c
  }

  /** `s.lowercased()`: lower-cases every character of `s` in place. */
  function Lower(s: string): (r: string)
    ensures |r| == |s|
    ensures forall i :: 0 <= i < |s| ==> r[i] == LowerChar(s[i])
  {
    if |s| == 0 then [] else [LowerChar(s[0])] + Lower(s[1..])
  }

  /** `t` occurs in `s` starting at position `i`. */
  predicate OccursAt(s: string, t: string, i: int)
  {
    0 <= i <= |s| - |t| && s[i..i + |t|] == t
  }

  /** `s.contains(t)`, compared character by character: the term is not
      empty and some window of `s` of length `|t|` is exactly `t`. Like
      Foundation's `range(of:)`, it never finds the empty string; unlike it,
      it does not treat canonically equivalent character sequences (a
      precomposed and a decomposed accent) as equal. */
  predicate Contains(s: string, t: string)
    ensures Contains(s, t) ==> 0 < |t| <= |s|
  {
    |t| > 0 && exists i | 0 <= i <= |s| - |t| :: OccursAt(s, t, i)
  }

  /** Lower-casing twice is lower-casing once. */
  lemma LowerIdempotent(s: string)
    ensures Lower(Lower(s)) == Lower(s)
  {
  }

  /** Lower-casing commutes with taking a slice. */
  lemma LowerSlice(s: string, i: int, j: int)
    requires 0 <= i <= j <= |s|
    ensures Lower(s)[i..j] == Lower(s[i..j])
  {
  }

  /** Exhibits a position at which `t` occurs in `s`. */
  lemma ContainsAt(s: string, t: string, i: int)
    requires |t| > 0 && OccursAt(s, t, i)
    ensures Contains(s, t)
  {
  }

  /** Case-insensitive containment is weaker than exact containment: an
      occurrence of `t` in `s` is also an occurrence of `Lower(t)` in
      `Lower(s)`. */
  lemma ContainsLower(s: string, t: string)
    requires Contains(s, t)
    ensures Contains(Lower(s), Lower(t))
  {
    var i :| 0 <= i <= |s| - |t| && OccursAt(s, t, i);
    assert s[i..i + |t|] == t;
    LowerSlice(s, i, i + |t|);
    ContainsAt(Lower(s), Lower(t), i);
  }
}

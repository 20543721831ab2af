/**
  String operations the tool dispatcher relies on: lower-casing and substring
  search. Strings are sequences of characters, as in the service itself, and
  `|s|` counts characters the way its length check does.
 */
module Text {

  /** Lower-cases one character. Only the ASCII letters 'A'..'Z' are mapped;
      every other character is returned unchanged. */
  function LowerChar(c: char): (d: char)
    ensures 'A' <= c <= 'Z' ==> 'a' <= d <= 'z' && d as int - c as int == 32
    ensures !('A' <= c <= 'Z') ==> d == c
  {
    if 'A' <= c <= 'Z' then (c as int + 32) as char else c
  }

  /** True when no character of `s` is an upper-case ASCII letter. */
  predicate IsLower(s: string) {
    forall i :: 0 <= i < |s| ==> !('A' <= s[i] <= 'Z')
  }

  /** Lower-cases a string character by character. */
  function Lower(s: string): (t: string)
    ensures |t| == |s|
    ensures IsLower(t)
    ensures forall i :: 0 <= i < |s| ==> t[i] == LowerChar(s[i])
  {
    seq(|s|, i requires 0 <= i < |s| => LowerChar(s[i]))
  }

  /** A string that is already lower case is its own lower case; in
      particular lower-casing twice is the same as lower-casing once. */
  lemma LowerOfLower(s: string)
    requires IsLower(s)
    ensures Lower(s) == s
  {
  }

  lemma LowerIdempotent(s: string)
    ensures Lower(Lower(s)) == Lower(s)
  {
    LowerOfLower(Lower(s));
  }

  /** Lower-casing commutes with concatenation. */
  lemma LowerAppend(a: string, b: string)
    ensures Lower(a + b) == Lower(a) + Lower(b)
  {
  }

  /** Lower-casing commutes with taking a slice. */
  lemma LowerSlice(s: string, i: nat, j: nat)
    requires i <= j <= |s|
    ensures Lower(s)[i..j] == Lower(s[i..j])
  {
  }

  /** The reference meaning of "`needle` occurs in `hay` starting at `i`". */
  ghost predicate OccursAt(hay: string, needle: string, i: int) {
    0 <= i && i + |needle| <= |hay| && hay[i..i + |needle|] == needle
  }

  /** The reference meaning of Python's `needle in hay` on strings. */
  ghost predicate Mentions(hay: string, needle: string) {
    exists i :: OccursAt(hay, needle, i)
  }

  /** Substring search: tries every start position from the left. */
  function Contains(hay: string, needle: string): (b: bool)
    ensures b <==> Mentions(hay, needle)
    decreases |hay|
  {
    if |needle| > |hay| then
      assert forall i :: !OccursAt(hay, needle, i);
      false
    else if hay[..|needle|] == needle then
      assert OccursAt(hay, needle, 0);
      true
    else
      var rest := Contains(hay[1..], needle);
      ShiftOccurrence(hay, needle);
      rest
  }

  /** When `needle` is not a prefix of `hay`, its occurrences in `hay` are
      exactly the occurrences in `hay[1..]`, shifted by one position. */
  lemma ShiftOccurrence(hay: string, needle: string)
    requires |needle| <= |hay|
    requires hay[..|needle|] != needle
    ensures Mentions(hay, needle) <==> Mentions(hay[1..], needle)
  {
    if Mentions(hay, needle) {
      var i :| OccursAt(hay, needle, i);
      assert i != 0;
      assert hay[1..][i - 1..i - 1 + |needle|] == hay[i..i + |needle|];
      assert OccursAt(hay[1..], needle, i - 1);
    }
    if Mentions(hay[1..], needle) {
      var j :| OccursAt(hay[1..], needle, j);
      assert hay[1..][j..j + |needle|] == hay[j + 1..j + 1 + |needle|];
      assert OccursAt(hay, needle, j + 1);
    }
  }

  /** Text added before or after keeps every occurrence. */
  lemma MentionsAppend(a: string, b: string, needle: string)
    requires Mentions(a, needle)
    ensures Mentions(a + b, needle)
    ensures Mentions(b + a, needle)
  {
    var i :| OccursAt(a, needle, i);
    assert (a + b)[i..i + |needle|] == a[i..i + |needle|];
    assert OccursAt(a + b, needle, i);
    assert (b + a)[|b| + i..|b| + i + |needle|] == a[i..i + |needle|];
    assert OccursAt(b + a, needle, |b| + i);
  }

  /** A string mentions itself. */
  lemma MentionsSelf(s: string)
    ensures Mentions(s, s)
  {
    assert OccursAt(s, s, 0);
  }

  /** A needle with a character the haystack lacks does not occur in it. */
  lemma MissingCharRulesOut(hay: string, needle: string, c: char)
    requires c in needle
    requires c !in hay
    ensures !Mentions(hay, needle)
  {
  }

  /** A needle that holds `c` twice does not occur in a haystack that holds
      `c` only once, at position `p`. */
  lemma SingleCharRulesOutDouble(hay: string, needle: string, c: char, p: nat)
    requires exists k1, k2 :: 0 <= k1 < k2 < |needle| && needle[k1] == c && needle[k2] == c
    requires p < |hay| && hay[p] == c
    requires c !in hay[..p] && c !in hay[p + 1..]
    ensures !Mentions(hay, needle)
  {
  }
}

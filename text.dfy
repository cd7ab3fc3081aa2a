/** The string primitives the handlers use: `trim`, `toLowerCase` and `includes`. */
module Text {

  /** The code points that `String.prototype.trim` strips: the WhiteSpace and
      LineTerminator sets of ECMAScript (tab, line feed, vertical tab, form feed,
      carriage return, space, no-break space, the Unicode space separators,
      line and paragraph separator, and the byte order mark). */
  predicate IsWhitespace(c: char) {
    || c == '\t' || c == '\n' || c == '\U{000B}' || c == '\U{000C}' || c == '\r' || c == ' '
    || c == '\U{00A0}' || c == '\U{1680}' || ('\U{2000}' <= c <= '\U{200A}')
    || c == '\U{2028}' || c == '\U{2029}' || c == '\U{202F}' || c == '\U{205F}'
    || c == '\U{3000}' || c == '\U{FEFF}'
  }

  /** Every character is whitespace: the strings whose trimmed form is falsy. */
  predicate IsBlank(s: string) {
    forall i :: 0 <= i < |s| ==> IsWhitespace(s[i])
  }

  /** A string that neither starts nor ends with whitespace. */
  predicate IsTrimmed(s: string) {
    s == [] || (!IsWhitespace(s[0]) && !IsWhitespace(s[|s| - 1]))
  }

  /** Number of leading whitespace characters. */
  function LeadingBlanks(s: string): (k: nat)
    ensures k <= |s|
    ensures forall i :: 0 <= i < k ==> IsWhitespace(s[i])
    ensures k < |s| ==> !IsWhitespace(s[k])
  {
    if s == [] || !IsWhitespace(s[0]) then 0 else LeadingBlanks(s[1..]) + 1
  }

  /** Number of trailing whitespace characters. */
  function TrailingBlanks(s: string): (k: nat)
    ensures k <= |s|
    ensures forall i :: |s| - k <= i < |s| ==> IsWhitespace(s[i])
    ensures k < |s| ==> !IsWhitespace(s[|s| - 1 - k])
  {
    if s == [] || !IsWhitespace(s[|s| - 1]) then 0 else TrailingBlanks(s[..|s| - 1]) + 1
  }

  /** `s.trim()`: `s` without its leading and trailing whitespace. */
  function Trim(s: string): (r: string)
    ensures IsTrimmed(r)
    ensures r == [] <==> IsBlank(s)
    ensures |r| <= |s|
  {
    var a := LeadingBlanks(s);
    var b := TrailingBlanks(s[a..]);
    s[a..|s| - b]
  }

  /** Trim cuts `s` into a blank prefix, the result, and a blank suffix. */
  lemma TrimSplits(s: string)
    ensures exists a, b :: 0 <= a <= b <= |s| && IsBlank(s[..a]) && IsBlank(s[b..]) && Trim(s) == s[a..b]
  {
    var a := LeadingBlanks(s);
    var b := |s| - TrailingBlanks(s[a..]);
    assert IsBlank(s[..a]) && IsBlank(s[b..]) && Trim(s) == s[a..b];
  }

  /** Any split of `s` into blank prefix, trimmed middle and blank suffix has `Trim(s)`
      as its middle: together with TrimSplits this pins down `Trim` completely. */
  lemma TrimUnique(s: string, a: nat, b: nat)
    requires a <= b <= |s|
    requires IsBlank(s[..a]) && IsBlank(s[b..]) && IsTrimmed(s[a..b])
    ensures Trim(s) == s[a..b]
  {
    forall i | 0 <= i < a ensures IsWhitespace(s[i]) { assert s[..a][i] == s[i]; }
    forall i | b <= i < |s| ensures IsWhitespace(s[i]) { assert s[b..][i - b] == s[i]; }
    assert a < b ==> !IsWhitespace(s[a]) && !IsWhitespace(s[b - 1]) by {
      if a < b { assert s[a..b][0] == s[a] && s[a..b][b - a - 1] == s[b - 1]; }
    }
    var a' := LeadingBlanks(s);
    var t := s[a'..];
    var b' := TrailingBlanks(t);
    forall j | a' + |t| - b' <= j < |s| ensures IsWhitespace(s[j]) { assert t[j - a'] == s[j]; }
    assert b' < |t| ==> !IsWhitespace(s[a' + |t| - 1 - b']);
  }

  /** Trimming twice is trimming once. */
  lemma TrimIdempotent(s: string)
    ensures Trim(Trim(s)) == Trim(s)
  {
    var r := Trim(s);
    assert r[..0] == [] && r[|r|..] == [] && r[0..|r|] == r;
    TrimUnique(r, 0, |r|);
  }

  /** ASCII case folding of one character (`toLowerCase` on the Latin letters). */
  function LowerChar(c: char): (d: char)
    ensures ('A' <= c <= 'Z') ==> 'a' <= d <= 'z' && d as int == c as int + 32
    ensures !('A' <= c <= 'Z') ==> d == c
  {
    if 'A' <= c <= 'Z' then (c as int + 32) as char else c
  }

  /** `s.toLowerCase()`, restricted to ASCII letters. */
  function Lower(s: string): (r: string)
    ensures |r| == |s|
    ensures forall i :: 0 <= i < |s| ==> r[i] == LowerChar(s[i])
  {
    seq(|s|, i requires 0 <= i < |s| => LowerChar(s[i]))
  }

  /** Lower-casing a slice is slicing the lower-cased string. */
  lemma LowerSlice(s: string, a: nat, b: nat)
    requires a <= b <= |s|
    ensures Lower(s)[a..b] == Lower(s[a..b])
  {
  }

  /** Case folding keeps blank strings blank and trimmed strings trimmed. */
  lemma LowerKeepsBlanks(s: string)
    ensures IsBlank(s) ==> IsBlank(Lower(s))
    ensures IsTrimmed(s) ==> IsTrimmed(Lower(s))
  {
  }

  /** Lower-casing and trimming commute: `s.toLowerCase().trim()` is `s.trim().toLowerCase()`. */
  lemma LowerTrimCommute(s: string)
    ensures Trim(Lower(s)) == Lower(Trim(s))
  {
    TrimSplits(s);
    var a, b :| 0 <= a <= b <= |s| && IsBlank(s[..a]) && IsBlank(s[b..]) && Trim(s) == s[a..b];
    LowerSplits(s, a, b);
    TrimUnique(Lower(s), a, b);
  }

  /** The split of `s` that Trim makes is also a split of `Lower(s)`. */
  lemma LowerSplits(s: string, a: nat, b: nat)
    requires a <= b <= |s|
    requires IsBlank(s[..a]) && IsBlank(s[b..]) && IsTrimmed(s[a..b])
    ensures IsBlank(Lower(s)[..a]) && IsBlank(Lower(s)[b..]) && IsTrimmed(Lower(s)[a..b])
    ensures Lower(s)[a..b] == Lower(s[a..b])
  {
    LowerSlice(s, 0, a);
    LowerSlice(s, a, b);
    LowerSlice(s, b, |s|);
    assert s[0..a] == s[..a] && s[b..|s|] == s[b..];
    LowerKeepsBlanks(s[..a]);
    LowerKeepsBlanks(s[b..]);
    LowerKeepsBlanks(s[a..b]);
  }

  /** `t` occurs in `s` starting at position `i`. */
  predicate OccursAt(s: string, t: string, i: int) {
    0 <= i && i + |t| <= |s| && s[i..i + |t|] == t
  }

  /** `s.includes(t)`: `t` is a contiguous substring of `s` (the empty string is in every string). */
  function Contains(s: string, t: string): (r: bool)
    ensures r <==> exists i :: OccursAt(s, t, i)
    decreases |s|
  {
    if |t| <= |s| && s[..|t|] == t then
      assert OccursAt(s, t, 0);
      true
    else if s == [] then
      false
    else
      var r := Contains(s[1..], t);
      assert r ==> exists i :: OccursAt(s, t, i) by {
        if r {
          var i :| OccursAt(s[1..], t, i);
          assert s[1..][i..i + |t|] == s[i + 1..i + 1 + |t|];
          assert OccursAt(s, t, i + 1);
        }
      }
      assert (exists i :: OccursAt(s, t, i)) ==> r by {
        if exists i :: OccursAt(s, t, i) {
          var i :| OccursAt(s, t, i);
          assert i != 0;
          assert s[1..][i - 1..i - 1 + |t|] == s[i..i + |t|];
          assert OccursAt(s[1..], t, i - 1);
        }
      }
      r
  }
}

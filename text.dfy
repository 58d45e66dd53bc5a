/**
 * String helpers shared by the pages: JavaScript's `trim`, `toLowerCase`,
 * `includes` and the `\S+@\S+\.\S+` email test, over `string` (a `seq<char>`).
 */
module Text {

  /** The fixed whitespace set that stands for JavaScript's `\s` (and for what
      `String.prototype.trim` strips): tab, line feed, vertical tab, form feed,
      carriage return, space, no-break space, the byte-order mark and the two
      Unicode line terminators. */
  predicate IsSpace(c: char) {
    c == '\t' || c == '\n' || c == '\U{0B}' || c == '\U{0C}' || c == '\r' || c == ' '
    || c == '\U{A0}' || c == '\U{FEFF}' || c == '\U{2028}' || c == '\U{2029}'
  }

  /** The number of whitespace characters `s` starts with. */
  function LeadingSpaces(s: string): (n: nat)
    ensures n <= |s|
    ensures forall k | 0 <= k < n :: IsSpace(s[k])
    ensures n < |s| ==> !IsSpace(s[n])
  {
    if s != [] && IsSpace(s[0]) then 1 + LeadingSpaces(s[1..]) else 0
  }

  /** The number of whitespace characters `s` ends with. */
  function TrailingSpaces(s: string): (n: nat)
    ensures n <= |s|
    ensures forall k | |s| - n <= k < |s| :: IsSpace(s[k])
    ensures n < |s| ==> !IsSpace(s[|s| - 1 - n])
  {
    if s != [] && IsSpace(s[|s| - 1]) then 1 + TrailingSpaces(s[..|s| - 1]) else 0
  }

  /** `s.trim()`: `s` without its leading and trailing whitespace. */
  function Trim(s: string): string {
    var t := s[LeadingSpaces(s)..];
    t[..|t| - TrailingSpaces(t)]
  }

  /** `!s.trim()`: the string is empty after trimming. */
  predicate IsBlank(s: string) {
    Trim(s) == ""
  }

  /** A string with a non-whitespace character is not blank. */
  lemma NonSpaceNotBlank(s: string, i: int)
    requires 0 <= i < |s| && !IsSpace(s[i])
    ensures !IsBlank(s)
  {
    var n := LeadingSpaces(s);
    var t := s[n..];
    assert n <= i;
    assert t[i - n] == s[i];
    var m := TrailingSpaces(t);
    assert i - n < |t| - m;
  }

  /** A string is blank exactly when every one of its characters is whitespace. */
  lemma BlankIffAllSpace(s: string)
    ensures IsBlank(s) <==> forall k | 0 <= k < |s| :: IsSpace(s[k])
  {
    if i :| 0 <= i < |s| && !IsSpace(s[i]) {
      NonSpaceNotBlank(s, i);
    } else {
      var n := LeadingSpaces(s);
      assert n == |s|;
    }
  }

  /** ASCII lowercasing of one character; every other character is kept. */
  function LowerChar(c: char): char {
    if 'A' <= c <= 'Z' then (c as int + 32) as char else c
  }

  /** `s.toLowerCase()`, restricted to ASCII letters. */
  function ToLower(s: string): (r: string)
    ensures |r| == |s|
    ensures forall i | 0 <= i < |s| :: r[i] == LowerChar(s[i])
  {
    if s == [] then [] else [LowerChar(s[0])] + ToLower(s[1..])
  }

  /** Blankness only depends on which positions hold whitespace. */
  lemma SameSpacesSameBlank(a: string, b: string)
    requires |a| == |b|
    requires forall k | 0 <= k < |a| :: IsSpace(a[k]) == IsSpace(b[k])
    ensures IsBlank(a) <==> IsBlank(b)
  {
    BlankIffAllSpace(a);
    BlankIffAllSpace(b);
  }

  /** Lowercasing never creates or removes whitespace, so a string and its
      lowercase form are blank together. */
  lemma LowerKeepsBlank(s: string)
    ensures IsBlank(ToLower(s)) <==> IsBlank(s)
  {
    var t := ToLower(s);
    forall k | 0 <= k < |s| ensures IsSpace(t[k]) == IsSpace(s[k]) {
      assert t[k] == LowerChar(s[k]);
    }
    SameSpacesSameBlank(t, s);
  }

  /** `needle` occurs in `hay` starting at index `i`. */
  predicate OccursAt(hay: string, needle: string, i: int) {
    0 <= i && i + |needle| <= |hay| && hay[i..i + |needle|] == needle
  }

  /** `hay.includes(needle)` */
  predicate Contains(hay: string, needle: string) {
    needle <= hay || (hay != [] && Contains(hay[1..], needle))
  }

  /** `Contains` finds exactly the positions at which the needle occurs. */
  lemma {:induction false} ContainsIff(hay: string, needle: string)
    ensures Contains(hay, needle) <==> exists i :: OccursAt(hay, needle, i)
  {
    if needle <= hay {
      assert OccursAt(hay, needle, 0);
    } else if hay == [] {
      assert forall i :: !OccursAt(hay, needle, i);
    } else {
      ContainsIff(hay[1..], needle);
      if Contains(hay[1..], needle) {
        var i :| OccursAt(hay[1..], needle, i);
        assert hay[i + 1..i + 1 + |needle|] == hay[1..][i..i + |needle|];
        assert OccursAt(hay, needle, i + 1);
      }
      if i :| OccursAt(hay, needle, i) {
        assert i != 0;
        assert hay[1..][i - 1..i - 1 + |needle|] == hay[i..i + |needle|];
        assert OccursAt(hay[1..], needle, i - 1);
      }
    }
  }

  /** `s[i..j]` is a non-empty run of non-whitespace characters (`\S+`). */
  predicate NonSpaceRun(s: string, i: int, j: int) {
    0 <= i < j <= |s| && forall k | i <= k < j :: !IsSpace(s[k])
  }

  /** `s[start..end]` is a match of `\S+@\S+\.\S+` with the `@` at `at` and the
      `.` at `dot`. */
  predicate EmailMatchAt(s: string, start: int, at: int, dot: int, end: int) {
    NonSpaceRun(s, start, at) && at < |s| && s[at] == '@'
    && NonSpaceRun(s, at + 1, dot) && dot < |s| && s[dot] == '.'
    && NonSpaceRun(s, dot + 1, end)
  }

  /** `/\S+@\S+\.\S+/.test(s)`: the pattern is unanchored, so it may match anywhere
      inside `s`. */
  predicate MatchesEmailPattern(s: string) {
    exists start, at, dot, end
      | 0 <= start < |s| && start < at < |s| && at < dot < |s| && dot < end <= |s|
      :: EmailMatchAt(s, start, at, dot, end)
  }

  /** The smallest shape a match can take: one non-space before the `@`, a
      non-space run up to the `.`, one non-space after it. */
  predicate EmailShape(s: string, at: int, dot: int) {
    0 < at && at + 1 < dot && dot + 1 < |s|
    && !IsSpace(s[at - 1]) && s[at] == '@'
    && NonSpaceRun(s, at + 1, dot)
    && s[dot] == '.' && !IsSpace(s[dot + 1])
  }

  /** Because the pattern is unanchored, the `\S+` runs before the `@` and after the
      `.` can be shrunk to one character: a match exists iff the shape does. */
  lemma EmailPatternIff(s: string)
    ensures MatchesEmailPattern(s) <==> exists at, dot :: EmailShape(s, at, dot)
  {
    if MatchesEmailPattern(s) {
      var start, at, dot, end :| 0 <= start < |s| && start < at < |s| && at < dot < |s| && dot < end <= |s|
        && EmailMatchAt(s, start, at, dot, end);
      assert EmailShape(s, at, dot);
    }
    if at, dot :| EmailShape(s, at, dot) {
      assert EmailMatchAt(s, at - 1, at, dot, dot + 2);
    }
  }

  /** A string that passes the email test holds a non-whitespace character (the
      `@`), so it is never blank. */
  lemma EmailPatternNotBlank(s: string)
    ensures MatchesEmailPattern(s) ==> !IsBlank(s)
  {
    if MatchesEmailPattern(s) {
      var start, at, dot, end :| 0 <= start < |s| && start < at < |s| && at < dot < |s| && dot < end <= |s|
        && EmailMatchAt(s, start, at, dot, end);
      NonSpaceNotBlank(s, at);
    }
  }
}

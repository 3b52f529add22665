/**
 * Rust's `str::trim`, which is `trim_matches(char::is_whitespace)`: strips
 * every leading and trailing character that has the Unicode `White_Space`
 * property. The trimming functions and their lemmas are stated for any
 * character predicate, as `trim_matches` is; `Trim` fixes it to whitespace.
 */
module Whitespace {

  /** The 25 code points of the Unicode `White_Space` property. */
  const WhiteSpaceChars: set<char> := {
    '\t', '\n', '\U{000B}', '\U{000C}', '\r', ' ', '\U{0085}', '\U{00A0}', '\U{1680}',
    '\U{2000}', '\U{2001}', '\U{2002}', '\U{2003}', '\U{2004}', '\U{2005}',
    '\U{2006}', '\U{2007}', '\U{2008}', '\U{2009}', '\U{200A}',
    '\U{2028}', '\U{2029}', '\U{202F}', '\U{205F}', '\U{3000}'
  }

  /** `char::is_whitespace`. */
  predicate IsWhitespace(c: char) {
    c in WhiteSpaceChars
  }

  predicate AllMatch(s: string, p: char -> bool) {
    forall i :: 0 <= i < |s| ==> p(s[i])
  }

  /** True of a text with no character matching `p` at either end. */
  predicate IsTrimmed(t: string, p: char -> bool) {
    t == [] || (!p(t[0]) && !p(t[|t| - 1]))
  }

  /** `str::trim_start_matches`: the suffix left after dropping the leading matches. */
  function TrimStartMatches(s: string, p: char -> bool): string {
    if s == [] || !p(s[0]) then s else TrimStartMatches(s[1..], p)
  }

  /** `str::trim_end_matches`: the prefix left after dropping the trailing matches. */
  function TrimEndMatches(s: string, p: char -> bool): string {
    if s == [] || !p(s[|s| - 1]) then s else TrimEndMatches(s[..|s| - 1], p)
  }

  /** `str::trim_matches`: the text between the leading and the trailing matches. */
  function TrimMatches(s: string, p: char -> bool): string {
    TrimEndMatches(TrimStartMatches(s, p), p)
  }

  /** `str::trim`: the line without its surrounding whitespace. */
  function Trim(s: string): string {
    TrimMatches(s, IsWhitespace)
  }

  /**
   * `trim_start_matches` drops exactly a run of matches: what is left is a
   * suffix that is empty or starts with a non-match.
   */
  lemma {:induction false} TrimStartShape(s: string, p: char -> bool)
    ensures var t := TrimStartMatches(s, p);
      && |t| <= |s| && t == s[|s| - |t|..]
      && (t == [] || !p(t[0]))
      && AllMatch(s[..|s| - |t|], p)
  {
    if s != [] && p(s[0]) {
      TrimStartShape(s[1..], p);
      var t := TrimStartMatches(s[1..], p);
      assert s[..|s| - |t|] == [s[0]] + s[1..][..|s| - 1 - |t|];
    }
  }

  /**
   * `trim_end_matches` drops exactly a run of matches: what is left is a
   * prefix that is empty or ends with a non-match.
   */
  lemma {:induction false} TrimEndShape(s: string, p: char -> bool)
    ensures var t := TrimEndMatches(s, p);
      && |t| <= |s| && t == s[..|t|]
      && (t == [] || !p(t[|t| - 1]))
      && AllMatch(s[|t|..], p)
  {
    if s != [] && p(s[|s| - 1]) {
      TrimEndShape(s[..|s| - 1], p);
      var t := TrimEndMatches(s[..|s| - 1], p);
      assert s[|t|..] == s[..|s| - 1][|t|..] + [s[|s| - 1]];
    }
  }

  /**
   * What `trim_matches` returns has no match at either end, and is empty
   * exactly when every character of the text matches.
   */
  lemma TrimShape(s: string, p: char -> bool)
    ensures var t := TrimMatches(s, p);
      |t| <= |s| && IsTrimmed(t, p) && (t == [] <==> AllMatch(s, p))
  {
    var m := TrimStartMatches(s, p);
    var t := TrimEndMatches(m, p);
    TrimStartShape(s, p);
    TrimEndShape(m, p);
    assert t != [] ==> t[0] == m[0];
    if t == [] {
      Splice(s, s[..|s| - |m|], m, t, m[|t|..]);
      AllMatchConcat(s[..|s| - |m|], m[|t|..], p);
    } else {
      assert t[|t| - 1] == s[|s| - |m| + |t| - 1];
    }
  }

  lemma Splice<T>(s: seq<T>, a: seq<T>, m: seq<T>, b: seq<T>, c: seq<T>)
    requires |a| <= |s| && a == s[..|a|] && m == s[|a|..]
    requires |b| <= |m| && b == m[..|b|] && c == m[|b|..]
    ensures s == a + b + c
  {
    assert m == b + c;
    assert s == a + m;
  }

  /** Every text is its trimmed core between two runs of matching characters. */
  lemma TrimSplit(s: string, p: char -> bool) returns (lead: string, trail: string)
    ensures AllMatch(lead, p) && AllMatch(trail, p)
    ensures s == lead + TrimMatches(s, p) + trail
  {
    var m := TrimStartMatches(s, p);
    var t := TrimEndMatches(m, p);
    TrimStartShape(s, p);
    TrimEndShape(m, p);
    lead, trail := s[..|s| - |m|], m[|t|..];
    Splice(s, lead, m, t, trail);
  }

  lemma {:induction false} TrimStartPadded(lead: string, s: string, p: char -> bool)
    requires AllMatch(lead, p)
    requires s == [] || !p(s[0])
    ensures TrimStartMatches(lead + s, p) == s
  {
    if lead != [] {
      assert (lead + s)[1..] == lead[1..] + s;
      TrimStartPadded(lead[1..], s, p);
    }
  }

  lemma {:induction false} TrimEndPadded(s: string, trail: string, p: char -> bool)
    requires AllMatch(trail, p)
    requires s == [] || !p(s[|s| - 1])
    ensures TrimEndMatches(s + trail, p) == s
  {
    if trail != [] {
      var n := |trail|;
      assert (s + trail)[..|s| + n - 1] == s + trail[..n - 1];
      TrimEndPadded(s, trail[..n - 1], p);
    } else {
      assert s + trail == s;
    }
  }

  lemma AllMatchConcat(a: string, b: string, p: char -> bool)
    requires AllMatch(a, p) && AllMatch(b, p)
    ensures AllMatch(a + b, p)
  {
  }

  /** A trimmed text between two runs of matches is exactly what trimming returns. */
  lemma TrimAroundCore(before: string, core: string, after: string, p: char -> bool)
    requires AllMatch(before, p) && AllMatch(after, p) && IsTrimmed(core, p)
    ensures TrimMatches(before + (core + after), p) == core
  {
    if core == [] {
      AllMatchConcat(before, after, p);
      assert before + (core + after) == before + after;
      TrimShape(before + after, p);
    } else {
      TrimStartPadded(before, core + after, p);
      TrimEndPadded(core, after, p);
    }
  }

  lemma Regroup<T>(a: seq<T>, b: seq<T>, c: seq<T>, d: seq<T>, e: seq<T>)
    ensures a + (b + c + d) + e == (a + b) + (c + (d + e))
  {
    assert b + c + d == b + (c + d);
    assert a + (b + (c + d)) == (a + b) + (c + d);
    assert (a + b) + (c + d) + e == (a + b) + ((c + d) + e);
    assert (c + d) + e == c + (d + e);
  }

  /** Whitespace added around a line never reaches what `trim` returns. */
  lemma TrimPadded(lead: string, s: string, trail: string)
    requires AllMatch(lead, IsWhitespace) && AllMatch(trail, IsWhitespace)
    ensures Trim(lead + s + trail) == Trim(s)
  {
    var p, q := TrimSplit(s, IsWhitespace);
    var core := TrimMatches(s, IsWhitespace);
    TrimShape(s, IsWhitespace);
    AllMatchConcat(lead, p, IsWhitespace);
    AllMatchConcat(q, trail, IsWhitespace);
    Regroup(lead, p, core, q, trail);
    TrimAroundCore(lead + p, core, q + trail, IsWhitespace);
  }

  /** Trimming a trimmed line changes nothing. */
  lemma TrimIdempotent(s: string)
    ensures Trim(Trim(s)) == Trim(s)
  {
    var t := Trim(s);
    TrimShape(s, IsWhitespace);
    TrimAroundCore([], t, [], IsWhitespace);
    assert [] + (t + []) == t;
  }
}

/**
  String operations the storefront pages rely on: JavaScript's `trim`, the
  `\s` character class, `toLowerCase` and `includes`, over `seq<char>`.
 */
module Text {

  /** ECMAScript WhiteSpace and LineTerminator code points: the set that both
      `String.prototype.trim` and the regular-expression class `\s` use. */
  const Whitespace: set<char> := {
    '\t', '\n', '\U{000B}', '\U{000C}', '\r', ' ', '\U{00A0}', '\U{1680}',
    '\U{2000}', '\U{2001}', '\U{2002}', '\U{2003}', '\U{2004}', '\U{2005}',
    '\U{2006}', '\U{2007}', '\U{2008}', '\U{2009}', '\U{200A}',
    '\U{2028}', '\U{2029}', '\U{202F}', '\U{205F}', '\U{3000}', '\U{FEFF}'
  }

  predicate IsWhitespace(c: char) {
    c in Whitespace
  }

  /** Every character of `s` is whitespace (vacuously true of ""). */
  predicate AllWhitespace(s: string) {
    forall k :: 0 <= k < |s| ==> IsWhitespace(s[k])
  }

  /** No character of `s` is whitespace. */
  predicate NoWhitespace(s: string) {
    forall k :: 0 <= k < |s| ==> !IsWhitespace(s[k])
  }

  /** `s.trim()`: drops whitespace from both ends. The result is empty
      exactly when `s` is all whitespace; `TrimIsSlice` and `TrimStripsEnds`
      say what else it is. */
  function Trim(s: string): (r: string)
    ensures r == "" <==> AllWhitespace(s)
    decreases |s|
  {
    if |s| > 0 && IsWhitespace(s[0]) then
      DropFirstBlank(s);
      Trim(s[1..])
    else if |s| > 0 && IsWhitespace(s[|s| - 1]) then
      DropLastBlank(s);
      Trim(s[..|s| - 1])
    else
      s
  }

  /** The trimmed string is a slice of `s` that neither starts nor ends with
      whitespace. */
  lemma {:induction false} TrimIsSlice(s: string)
    ensures Includes(s, Trim(s))
    ensures var r := Trim(s); |r| > 0 ==> !IsWhitespace(r[0]) && !IsWhitespace(r[|r| - 1])
    decreases |s|
  {
    if |s| > 0 && IsWhitespace(s[0]) {
      TrimIsSlice(s[1..]);
      SliceOfTail(s, Trim(s[1..]));
    } else if |s| > 0 && IsWhitespace(s[|s| - 1]) {
      TrimIsSlice(s[..|s| - 1]);
      SliceOfFront(s, Trim(s[..|s| - 1]));
    } else {
      assert s <= s[0..];
    }
  }

  /** `s[i..j]` is `s` with only whitespace removed before `i` and after `j`. */
  predicate StripsEnds(s: string, i: int, j: int) {
    0 <= i <= j <= |s| && AllWhitespace(s[..i]) && AllWhitespace(s[j..])
  }

  /** Trimming removes whitespace at the two ends and nothing else: the
      result is `s[i..j]` with only whitespace before `i` and after `j`. */
  lemma {:induction false} TrimStripsEnds(s: string)
    ensures exists i, j :: StripsEnds(s, i, j) && Trim(s) == s[i..j]
    decreases |s|
  {
    if |s| > 0 && IsWhitespace(s[0]) {
      TrimStripsEnds(s[1..]);
      var i, j :| StripsEnds(s[1..], i, j) && Trim(s[1..]) == s[1..][i..j];
      StripsOneMoreFirst(s, i, j);
    } else if |s| > 0 && IsWhitespace(s[|s| - 1]) {
      TrimStripsEnds(s[..|s| - 1]);
      var i, j :| StripsEnds(s[..|s| - 1], i, j) && Trim(s[..|s| - 1]) == s[..|s| - 1][i..j];
      StripsOneMoreLast(s, i, j);
    } else {
      assert StripsEnds(s, 0, |s|) && Trim(s) == s[0..|s|];
    }
  }

  /** A whitespace first character extends the stripped prefix by one. */
  lemma StripsOneMoreFirst(s: string, i: int, j: int)
    requires |s| > 0 && IsWhitespace(s[0]) && StripsEnds(s[1..], i, j)
    ensures StripsEnds(s, i + 1, j + 1) && s[1..][i..j] == s[i + 1..j + 1]
  {
    assert s[..i + 1] == [s[0]] + s[1..][..i];
    BlankBefore(s[0], s[1..][..i]);
    assert s[j + 1..] == s[1..][j..];
  }

  /** A whitespace last character extends the stripped suffix by one. */
  lemma StripsOneMoreLast(s: string, i: int, j: int)
    requires |s| > 0 && IsWhitespace(s[|s| - 1]) && StripsEnds(s[..|s| - 1], i, j)
    ensures StripsEnds(s, i, j) && s[..|s| - 1][i..j] == s[i..j]
  {
    var front := s[..|s| - 1];
    assert s[..i] == front[..i];
    assert s[j..] == front[j..] + [s[|s| - 1]];
    BlankAfter(front[j..], s[|s| - 1]);
  }

  /** Whitespace followed by blank text is blank. */
  lemma BlankBefore(c: char, t: string)
    requires IsWhitespace(c) && AllWhitespace(t)
    ensures AllWhitespace([c] + t)
  {
    assert forall k :: 0 < k < |[c] + t| ==> ([c] + t)[k] == t[k - 1];
  }

  /** Blank text followed by whitespace is blank. */
  lemma BlankAfter(t: string, c: char)
    requires AllWhitespace(t) && IsWhitespace(c)
    ensures AllWhitespace(t + [c])
  {
    assert forall k :: 0 <= k < |t| ==> (t + [c])[k] == t[k];
  }

  /** A string that starts with whitespace is blank exactly when the rest is. */
  lemma DropFirstBlank(s: string)
    requires |s| > 0 && IsWhitespace(s[0])
    ensures AllWhitespace(s) <==> AllWhitespace(s[1..])
  {
    if AllWhitespace(s[1..]) {
      forall k | 1 <= k < |s|
        ensures IsWhitespace(s[k])
      {
        assert s[k] == s[1..][k - 1];
      }
    }
  }

  /** A string that ends with whitespace is blank exactly when the rest is. */
  lemma DropLastBlank(s: string)
    requires |s| > 0 && IsWhitespace(s[|s| - 1])
    ensures AllWhitespace(s) <==> AllWhitespace(s[..|s| - 1])
  {
    if AllWhitespace(s[..|s| - 1]) {
      forall k | 0 <= k < |s| - 1
        ensures IsWhitespace(s[k])
      {
        assert s[k] == s[..|s| - 1][k];
      }
    }
  }

  /** A slice of the tail of `s` is a slice of `s`. */
  lemma SliceOfTail(s: string, r: string)
    requires |s| > 0 && Includes(s[1..], r)
    ensures Includes(s, r)
  {
    var i :| 0 <= i <= |s[1..]| && r <= s[1..][i..];
    assert s[1..][i..] == s[i + 1..];
  }

  /** A slice of the front of `s` is a slice of `s`. */
  lemma SliceOfFront(s: string, r: string)
    requires |s| > 0 && Includes(s[..|s| - 1], r)
    ensures Includes(s, r)
  {
    var i :| 0 <= i <= |s[..|s| - 1]| && r <= s[..|s| - 1][i..];
    assert r <= s[i..];
  }

  /** `String.prototype.toLowerCase` on one character, ASCII letters only. */
  function LowerChar(c: char): (r: char)
    ensures 'A' <= c <= 'Z' ==> 'a' <= r <= 'z' && r as int - 'a' as int == c as int - 'A' as int
    ensures !('A' <= c <= 'Z') ==> r == c
  {
    if 'A' <= c <= 'Z' then (c as int + 32) as char else c
  }

  /** `s.toLowerCase()`, character by character. */
  function Lower(s: string): (r: string)
    ensures |r| == |s|
    ensures forall k :: 0 <= k < |s| ==> r[k] == LowerChar(s[k])
  {
    seq(|s|, k requires 0 <= k < |s| => LowerChar(s[k]))
  }

  /** Lower-casing twice is lower-casing once. */
  lemma LowerIdempotent(s: string)
    ensures Lower(Lower(s)) == Lower(s)
  {
  }

  /** A lower-cased string has no capital letter left, and differs from the
      original only where the original had a capital, which became the same
      letter in lower case. */
  lemma LowerHasNoCapitals(s: string)
    ensures |Lower(s)| == |s|
    ensures forall k :: 0 <= k < |s| ==> !('A' <= Lower(s)[k] <= 'Z')
    ensures forall k :: 0 <= k < |s| ==>
      if 'A' <= s[k] <= 'Z' then Lower(s)[k] as int - 'a' as int == s[k] as int - 'A' as int
      else Lower(s)[k] == s[k]
  {
  }

  /** `hay.includes(needle)`: `needle` occurs as a contiguous slice of `hay`. */
  predicate Includes(hay: string, needle: string) {
    exists i :: 0 <= i <= |hay| && needle <= hay[i..]
  }

  /** Every string includes the empty string. */
  lemma IncludesEmpty(hay: string)
    ensures Includes(hay, "")
  {
    assert "" <= hay[0..];
  }
}

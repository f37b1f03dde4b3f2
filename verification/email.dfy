/**
  The checkout form's email pattern `^[^\s@]+@[^\s@]+\.[^\s@]+$`: what the
  regular expression matches, and the same language described in plain
  terms (no whitespace, one '@', a non-empty local part, and a domain with a
  '.' that is neither its first nor its last character).
 */
module Email {
  import opened Text

  /** A character of the class `[^\s@]`. */
  predicate Plain(c: char) {
    !IsWhitespace(c) && c != '@'
  }

  /** A match of `[^\s@]+`. */
  predicate PlainRun(t: string) {
    |t| > 0 && forall k :: 0 <= k < |t| ==> Plain(t[k])
  }

  /** The regular expression, anchored at both ends: the string splits as
      run '@' run '.' run. The middle run may itself contain dots; the
      regular expression backtracks to any dot that leaves a non-empty
      final run. */
  predicate MatchesPattern(s: string) {
    exists at, dot | 0 <= at < dot < |s| :: Split(s, at, dot)
  }

  /** The same language, stated as a description of the address. */
  predicate WellFormed(s: string) {
    && NoWhitespace(s)
    && multiset(s)['@'] == 1
    && exists at, dot :: 0 < at && at + 1 < dot < |s| - 1 && s[at] == '@' && s[dot] == '.'
  }

  /** An '@' at `i` and at `j` of a string with exactly one '@' is the same '@'. */
  lemma OneAt(s: string, i: nat, j: nat)
    requires multiset(s)['@'] == 1
    requires i < j < |s|
    ensures !(s[i] == '@' && s[j] == '@')
  {
    assert s == s[..j] + [s[j]] + s[j + 1..];
    assert multiset(s) == multiset(s[..j]) + multiset([s[j]]) + multiset(s[j + 1..]);
    if s[i] == '@' {
      assert s[..j][i] == '@';
      assert '@' in multiset(s[..j]);
    }
  }

  /** A run of `[^\s@]` holds no '@' and no whitespace. */
  lemma PlainRunFacts(t: string)
    requires PlainRun(t)
    ensures multiset(t)['@'] == 0
    ensures NoWhitespace(t)
  {
    assert '@' !in t;
  }

  /** The regular expression and the description accept the same strings. */
  lemma PatternIsWellFormed(s: string)
    ensures MatchesPattern(s) <==> WellFormed(s)
  {
    if MatchesPattern(s) {
      MatchIsWellFormed(s);
    }
    if WellFormed(s) {
      WellFormedMatches(s);
    }
  }

  lemma MatchIsWellFormed(s: string)
    requires MatchesPattern(s)
    ensures WellFormed(s)
  {
    var at, dot :| Split(s, at, dot);
    SplitHasOneAt(s, at, dot);
    SplitHasNoWhitespace(s, at, dot);
    assert 0 < at && at + 1 < dot < |s| - 1 && s[at] == '@' && s[dot] == '.';
  }

  /** `s` splits as run '@' run '.' run at positions `at` and `dot`. */
  predicate Split(s: string, at: int, dot: int) {
    0 <= at < dot < |s| && s[at] == '@' && s[dot] == '.'
      && PlainRun(s[..at]) && PlainRun(s[at + 1..dot]) && PlainRun(s[dot + 1..])
  }

  lemma SplitHasOneAt(s: string, at: int, dot: int)
    requires Split(s, at, dot)
    ensures multiset(s)['@'] == 1
  {
    var a, b, c := s[..at], s[at + 1..dot], s[dot + 1..];
    PlainRunFacts(a);
    PlainRunFacts(b);
    PlainRunFacts(c);
    var mid := b + (['.'] + c);
    assert s[at + 1..] == mid;
    assert s == a + (['@'] + mid);
    assert multiset(s) == multiset(a) + multiset(['@']) + multiset(b) + multiset(['.']) + multiset(c);
  }

  lemma SplitHasNoWhitespace(s: string, at: int, dot: int)
    requires Split(s, at, dot)
    ensures NoWhitespace(s)
  {
    var a, b, c := s[..at], s[at + 1..dot], s[dot + 1..];
    forall k | 0 <= k < |s|
      ensures !IsWhitespace(s[k])
    {
      if k < at {
        assert s[k] == a[k];
      } else if at < k < dot {
        assert s[k] == b[k - at - 1];
      } else if k > dot {
        assert s[k] == c[k - dot - 1];
      }
    }
  }

  lemma WellFormedMatches(s: string)
    requires WellFormed(s)
    ensures MatchesPattern(s)
  {
    var at, dot :| 0 < at && at + 1 < dot < |s| - 1 && s[at] == '@' && s[dot] == '.';
    assert forall k :: 0 <= k < |s| && k != at ==> Plain(s[k]) by {
      forall k | 0 <= k < |s| && k != at
        ensures Plain(s[k])
      {
        if k < at {
          OneAt(s, k, at);
        } else {
          OneAt(s, at, k);
        }
      }
    }
    assert PlainRun(s[..at]);
    assert PlainRun(s[at + 1..dot]);
    assert PlainRun(s[dot + 1..]);
    assert Split(s, at, dot);
  }

  /** A string the pattern accepts is not blank, so the "required" check
      never fires for it. */
  lemma MatchedIsNotBlank(s: string)
    ensures MatchesPattern(s) ==> !AllWhitespace(s)
  {
    if MatchesPattern(s) {
      MatchedHasNonSpace(s);
    }
  }

  lemma MatchedHasNonSpace(s: string)
    requires MatchesPattern(s)
    ensures !AllWhitespace(s)
  {
    var at, dot :| 0 <= at < dot < |s| && Split(s, at, dot);
    assert s[at] == '@';
  }

  /** "a@b.co" is accepted. */
  lemma AcceptsExample()
    ensures MatchesPattern("a@b.co")
  {
    var s := "a@b.co";
    assert s[..1] == "a" && s[2..3] == "b" && s[4..] == "co";
    assert PlainRun(s[..1]) && PlainRun(s[2..3]) && PlainRun(s[4..]);
    assert Split(s, 1, 3);
  }

  /** "not-an-email" is rejected: it has no '@'. */
  lemma RejectsExample()
    ensures !MatchesPattern("not-an-email")
  {
    var s := "not-an-email";
    PatternIsWellFormed(s);
    assert '@' !in s;
  }

  /** The pattern is matched against the raw value, so surrounding whitespace that
      `trim` would have removed makes an address invalid. */
  lemma RejectsPadded(s: string)
    ensures !MatchesPattern(" " + s)
  {
    PatternIsWellFormed(" " + s);
    assert (" " + s)[0] == ' ';
  }
}

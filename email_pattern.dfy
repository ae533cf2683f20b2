/** The email pattern `^[^\s@]+@[^\s@]+\.[^\s@]+$` that both the sign-up form
    (`isValidEmail`) and the student login (`validateEmail`) test addresses with.
    It is a loose shape check, not an address grammar. */
module EmailPattern {

  import opened Text

  /** The class `[^\s@]`. */
  predicate IsPlain(c: char) {
    !IsJsWhitespace(c) && c != '@'
  }

  /** `[^\s@]+`: one or more plain characters. */
  predicate PlainRun(s: string) {
    |s| >= 1 && forall k | 0 <= k < |s| :: IsPlain(s[k])
  }

  /** The anchored pattern matches `s` with its '@' at index `at` and the literal
      '.' at index `dot`. */
  predicate MatchesAt(s: string, at: int, dot: int) {
    && 0 <= at < dot < |s|
    && s[at] == '@' && s[dot] == '.'
    && PlainRun(s[..at]) && PlainRun(s[at + 1..dot]) && PlainRun(s[dot + 1..])
  }

  /** `emailRegex.test(s)`: some choice of the '@' and the '.' makes the pattern match. */
  predicate IsValidEmail(s: string) {
    exists at, dot | 0 <= at < |s| && 0 <= dot < |s| :: MatchesAt(s, at, dot)
  }

  predicate NoWhitespace(s: string) {
    forall k | 0 <= k < |s| :: !IsJsWhitespace(s[k])
  }

  /** The domain has a '.' with at least one character on each side of it. */
  predicate HasInnerDot(d: string) {
    exists k | 0 < k < |d| - 1 :: d[k] == '.'
  }

  /** The same language in words: no whitespace, exactly one '@' with something before it,
      and after it a '.' with text on both sides. */
  predicate AddressShape(s: string) {
    && NoWhitespace(s)
    && exists at | 0 < at < |s| ::
         s[at] == '@' && '@' !in s[..at] && '@' !in s[at + 1..] && HasInnerDot(s[at + 1..])
  }

  /** The pattern accepts a string exactly when it has the address shape. */
  lemma EmailPatternIff(s: string)
    ensures IsValidEmail(s) <==> AddressShape(s)
  {
    if IsValidEmail(s) {
      var at, dot :| 0 <= at < |s| && 0 <= dot < |s| && MatchesAt(s, at, dot);
      MatchImpliesShape(s, at, dot);
    }
    if AddressShape(s) {
      var at :| 0 < at < |s| && s[at] == '@' && '@' !in s[..at] && '@' !in s[at + 1..]
        && HasInnerDot(s[at + 1..]);
      var d := s[at + 1..];
      var k :| 0 < k < |d| - 1 && d[k] == '.';
      ShapeImpliesMatch(s, at, at + 1 + k);
    }
  }

  lemma MatchImpliesShape(s: string, at: int, dot: int)
    requires MatchesAt(s, at, dot)
    ensures AddressShape(s)
  {
    var left, mid, right := s[..at], s[at + 1..dot], s[dot + 1..];
    forall k | 0 <= k < |s| ensures !IsJsWhitespace(s[k]) && (s[k] == '@' ==> k == at) {
      if k < at {
        assert s[k] == left[k];
      } else if at < k < dot {
        assert s[k] == mid[k - at - 1];
      } else if dot < k {
        assert s[k] == right[k - dot - 1];
      }
    }
    var d := s[at + 1..];
    assert d[dot - at - 1] == '.';
    assert HasInnerDot(d);
    assert '@' !in s[..at] by {
      forall k | 0 <= k < at ensures s[..at][k] != '@' {
        assert s[..at][k] == s[k];
      }
    }
    assert '@' !in d by {
      forall k | 0 <= k < |d| ensures d[k] != '@' {
        assert d[k] == s[at + 1 + k];
      }
    }
  }

  lemma ShapeImpliesMatch(s: string, at: int, dot: int)
    requires NoWhitespace(s)
    requires 0 < at && at + 1 < dot && dot + 1 < |s|
    requires s[at] == '@' && s[dot] == '.'
    requires '@' !in s[..at] && '@' !in s[at + 1..]
    ensures MatchesAt(s, at, dot)
  {
    var d := s[at + 1..];
    forall k | 0 <= k < |s| && k != at ensures IsPlain(s[k]) {
      if k < at {
        assert s[..at][k] == s[k];
      } else {
        assert d[k - at - 1] == s[k];
      }
    }
  }

  /** Whitespace anywhere, no '@' at all, or two '@'s: the pattern rejects. */
  lemma EmailRejects(s: string, a: int, b: int)
    requires || (0 <= a < |s| && IsJsWhitespace(s[a]))
             || '@' !in s
             || (0 <= a < b < |s| && s[a] == '@' && s[b] == '@')
    ensures !IsValidEmail(s)
  {
    EmailPatternIff(s);
  }
}

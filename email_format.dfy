/** The e-mail check that both the login page and the registration page run
    before they contact the server: the regular expression
    `^[^\s@]+@[^\s@]+\.[^\s@]+$`. */
module EmailFormat {
  import opened Collections
  import opened Text

  /** A character matched by the class `[^\s@]`. */
  predicate IsPlain(c: char) {
    !IsWhitespace(c) && c != '@'
  }

  predicate AllPlain(s: string) {
    forall k | 0 <= k < |s| :: IsPlain(s[k])
  }

  /** A direct reading of the pattern: the whole string is a non-empty plain
      run, an `@`, a non-empty plain run, a `.` and a non-empty plain run.
      `i` is the position of the `@` and `j` that of the `.`. */
  ghost predicate MatchesEmailPattern(s: string) {
    exists i, j :: 0 < i && i + 1 < j && j + 1 < |s| && s[i] == '@' && s[j] == '.'
                   && AllPlain(s[..i]) && AllPlain(s[i + 1..j]) && AllPlain(s[j + 1..])
  }

  /** The executable check: no whitespace at all, exactly one `@`, which is not
      the first character, and a `.` strictly inside what follows it, neither
      right after the `@` nor last. */
  predicate IsValidEmail(s: string) {
    && (forall k | 0 <= k < |s| :: !IsWhitespace(s[k]))
    && Count(s, '@') == 1
    && var i := IndexOf(s, '@');
       0 < i && exists j | i + 1 < j < |s| - 1 :: s[j] == '.'
  }

  lemma {:induction false} CountAtLeastTwo(s: string, x: char, a: nat, b: nat)
    requires a < b < |s| && s[a] == x && s[b] == x
    ensures Count(s, x) >= 2
    decreases |s|
  {
    if a == 0 {
      assert s[1..][b - 1] == x;
      assert x in s[1..];
    } else {
      CountAtLeastTwo(s[1..], x, a - 1, b - 1);
    }
  }

  /** The executable check accepts exactly the strings the pattern matches. */
  lemma EmailCheckMatchesPattern(s: string)
    ensures IsValidEmail(s) <==> MatchesEmailPattern(s)
  {
    if IsValidEmail(s) {
      CheckImpliesPattern(s);
    }
    if MatchesEmailPattern(s) {
      PatternImpliesCheck(s);
    }
  }

  lemma CheckImpliesPattern(s: string)
    requires IsValidEmail(s)
    ensures MatchesEmailPattern(s)
  {
    var i := IndexOf(s, '@');
    var j :| i + 1 < j < |s| - 1 && s[j] == '.';
    forall k | 0 <= k < |s| && k != i ensures s[k] != '@' {
      if s[k] == '@' {
        if k < i {
          assert false;
        } else {
          CountAtLeastTwo(s, '@', i, k);
        }
      }
    }
    assert AllPlain(s[..i]);
    assert AllPlain(s[i + 1..j]);
    assert AllPlain(s[j + 1..]);
  }

  lemma PatternImpliesCheck(s: string)
    requires MatchesEmailPattern(s)
    ensures IsValidEmail(s)
  {
    var i, j :| 0 < i && i + 1 < j && j + 1 < |s| && s[i] == '@' && s[j] == '.'
                && AllPlain(s[..i]) && AllPlain(s[i + 1..j]) && AllPlain(s[j + 1..]);
    forall k | 0 <= k < |s| ensures IsPlain(s[k]) || k == i {
      if k < i {
        assert s[k] == s[..i][k];
      } else if i < k < j {
        assert s[k] == s[i + 1..j][k - i - 1];
      } else if j < k {
        assert s[k] == s[j + 1..][k - j - 1];
      }
    }
    OnlyOccurrence(s, '@', i);
  }

  /** A character found at exactly one position occurs once, first there. */
  lemma OnlyOccurrence(s: string, x: char, i: nat)
    requires i < |s| && s[i] == x
    requires forall k | 0 <= k < |s| && k != i :: s[k] != x
    ensures Count(s, x) == 1 && IndexOf(s, x) == i
  {
    var tail := s[i + 1..];
    assert s == s[..i] + [s[i]] + tail;
    assert x !in s[..i];
    assert x !in tail;
    assert multiset(s)[x] == multiset(s[..i])[x] + 1 + multiset(tail)[x];
  }
}

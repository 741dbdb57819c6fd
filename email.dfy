/**
 * The e-mail test of `handleRegister` (screen/RegisterScreen.tsx), the pattern
 * `^[^\s@]+@[^\s@]+\.[^\s@]+$`, written out by hand.
 *
 * `MatchesEmailPattern` says what it means for the whole string to match the
 * pattern: it splits as local part, '@', domain head, '.', domain tail, each of
 * the three parts a non-empty run of characters that are neither whitespace
 * nor '@'. `IsValidEmail` decides the same thing by scanning (find the first '@',
 * check the characters, look for an inner dot), and `ValidEmailMatchesPattern`
 * proves the two agree on every string.
 */
module EmailPattern {
  import opened Wrappers
  import opened Strings

  /**
   * The characters of the JavaScript class `\s`: the ECMAScript WhiteSpace and
   * LineTerminator code points.
   */
  predicate IsSpace(c: char) {
    || c == '\t' || c == '\n' || c == '\U{000B}' || c == '\U{000C}' || c == '\r'
    || c == ' ' || c == '\U{00A0}' || c == '\U{1680}'
    || ('\U{2000}' <= c <= '\U{200A}')
    || c == '\U{2028}' || c == '\U{2029}' || c == '\U{202F}' || c == '\U{205F}'
    || c == '\U{3000}' || c == '\U{FEFF}'
  }

  /** The class `[^\s@]`. */
  predicate Plain(c: char) {
    !IsSpace(c) && c != '@'
  }

  predicate AllPlain(t: string) {
    forall k :: 0 <= k < |t| ==> Plain(t[k])
  }

  /** The whole string matches `^[^\s@]+@[^\s@]+\.[^\s@]+$`; `i` is the '@', `j` the '.'. */
  ghost predicate MatchesEmailPattern(s: string) {
    exists i, j ::
      && 0 < i && i + 1 < j && j + 1 < |s|
      && s[i] == '@' && s[j] == '.'
      && AllPlain(s[..i]) && AllPlain(s[i + 1..j]) && AllPlain(s[j + 1..])
  }

  /** Whether `t` contains a '.'. */
  function ContainsDot(t: string): (b: bool)
    ensures b <==> exists k :: 0 <= k < |t| && t[k] == '.'
  {
    if t == [] then false
    else t[0] == '.' || ContainsDot(t[1..])
  }

  /**
   * The scanning check: there is an '@' with something before it, no whitespace
   * or further '@' anywhere, and the part after the '@' has a '.' that is
   * neither its first nor its last character.
   */
  predicate IsValidEmail(s: string) {
    match IndexOf(s, '@')
    case None => false
    case Some(i) =>
      && i > 0
      && AllPlain(s[..i]) && AllPlain(s[i + 1..])
      && i + 3 <= |s| && ContainsDot(s[i + 2..|s| - 1])
  }

  lemma PlainSlices(s: string, i: nat, j: nat)
    requires i <= j < |s| && s[j] == '.'
    ensures AllPlain(s[i..]) <==> AllPlain(s[i..j]) && AllPlain(s[j + 1..])
  {
    assert s[i..] == s[i..j] + [s[j]] + s[j + 1..];
  }

  /** The scanning check accepts exactly the strings the pattern matches. */
  lemma ValidEmailMatchesPattern(s: string)
    ensures IsValidEmail(s) <==> MatchesEmailPattern(s)
  {
    if IsValidEmail(s) {
      var i := IndexOf(s, '@').value;
      var d := s[i + 2..|s| - 1];
      var k :| 0 <= k < |d| && d[k] == '.';
      var j := i + 2 + k;
      assert s[j] == '.';
      PlainSlices(s, i + 1, j);
      assert 0 < i && i + 1 < j && j + 1 < |s|;
      assert s[i] == '@' && AllPlain(s[..i]) && AllPlain(s[i + 1..j]) && AllPlain(s[j + 1..]);
    }
    if MatchesEmailPattern(s) {
      var i, j :| && 0 < i && i + 1 < j && j + 1 < |s|
                  && s[i] == '@' && s[j] == '.'
                  && AllPlain(s[..i]) && AllPlain(s[i + 1..j]) && AllPlain(s[j + 1..]);
      forall k | 0 <= k < i ensures s[k] != '@' {
        assert Plain(s[..i][k]);
      }
      assert IndexOf(s, '@') == Some(i);
      PlainSlices(s, i + 1, j);
      var d := s[i + 2..|s| - 1];
      assert d[j - (i + 2)] == '.';
    }
  }

  /**
   * What an accepted address looks like: no whitespace anywhere, exactly one '@',
   * something before it, and after it a '.' with at least one character on
   * each side.
   */
  lemma AcceptedEmailShape(s: string)
    requires IsValidEmail(s)
    ensures forall k :: 0 <= k < |s| ==> !IsSpace(s[k])
    ensures exists i :: 0 < i < |s| && s[i] == '@' && forall k :: 0 <= k < |s| && k != i ==> s[k] != '@'
    ensures exists i, j :: 0 < i && i + 1 < j && j + 1 < |s| && s[i] == '@' && s[j] == '.'
  {
    ValidEmailMatchesPattern(s);
    var i := IndexOf(s, '@').value;
    forall k | 0 <= k < |s| ensures !IsSpace(s[k]) && (k != i ==> s[k] != '@') {
      if k < i { assert Plain(s[..i][k]); }
      else if k > i { assert Plain(s[i + 1..][k - i - 1]); }
    }
  }
}

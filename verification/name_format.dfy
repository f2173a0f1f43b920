/**
 The allow-list format check on a requested container name:
 `^[a-zA-Z0-9][a-zA-Z0-9_.-]*$` as PCRE evaluates it, where `$` (without the
 `D` modifier) matches at the very end or just before one final newline.
 */
module NameFormat {

  predicate IsAlphaNumeric(c: char)
  {
    'a' <= c <= 'z' || 'A' <= c <= 'Z' || '0' <= c <= '9'
  }

  /** The characters allowed after the first: alphanumerics, `_`, `.` and `-`. */
  predicate IsNameChar(c: char)
  {
    IsAlphaNumeric(c) || c == '_' || c == '.' || c == '-'
  }

  /** `s` is an alphanumeric character followed by any number of name characters. */
  predicate IsStrictName(s: string)
  {
    |s| > 0 && IsAlphaNumeric(s[0]) && forall i :: 1 <= i < |s| ==> IsNameChar(s[i])
  }

  /** What the anchored pattern accepts: a strict name, optionally followed by one newline. */
  predicate MatchesNamePattern(s: string)
  {
    IsStrictName(s) || (|s| > 1 && s[|s| - 1] == '\n' && IsStrictName(s[..|s| - 1]))
  }

  /**
   A single left-to-right scan deciding the pattern. The connect handler's
   model uses the predicate `MatchesNamePattern` directly; this method shows
   the predicate is decided by one pass over the name, as the
   regular-expression engine does.
   */
  method ScanName(s: string) returns (ok: bool)
    ensures ok <==> MatchesNamePattern(s)
  {
    var n := |s|;
    if n > 1 && s[n - 1] == '\n' {
      n := n - 1;
    }
    if n == 0 || !IsAlphaNumeric(s[0]) {
      return false;
    }
    var i := 1;
    while i < n
      invariant 1 <= i <= n
      invariant forall k :: 1 <= k < i ==> IsNameChar(s[k])
    {
      if !IsNameChar(s[i]) {
        assert !IsStrictName(s[..n]) by { assert s[..n][i] == s[i]; }
        assert !IsStrictName(s) by { assert s[i] == s[..|s|][i]; }
        return false;
      }
      i := i + 1;
    }
    assert IsStrictName(s[..n]);
    return true;
  }

  /** Names containing a path separator, shell metacharacters or a leading dot are refused; a plain name passes. */
  lemma RejectsUnsafeNames()
    ensures !MatchesNamePattern("../etc")
    ensures !MatchesNamePattern("a;rm -rf")
    ensures !MatchesNamePattern(".hidden")
    ensures !MatchesNamePattern("")
    ensures MatchesNamePattern("web-1_a.b")
  {
    assert "a;rm -rf"[1] == ';';
    assert "a;rm -rf"[..7][1] == ';';
  }

  /** The end anchor lets exactly one trailing newline through, but not two. */
  lemma TrailingNewlineAccepted()
    ensures MatchesNamePattern("web\n")
    ensures !MatchesNamePattern("web\n\n")
  {
    assert "web\n"[..3] == "web";
    assert "web\n\n"[..4][3] == '\n';
    assert "web\n\n"[4] == '\n';
  }
}

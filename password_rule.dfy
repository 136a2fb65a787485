/**
 * The password rule `/^(?=.*[A-Z]).{8,12}$/`, used by the browser's
 * `validatePassword` and again by the server's signup route. The regex has no
 * `u` and no `s` flag, so it runs over UTF-16 code units and its `.` stops at
 * line terminators.
 */
module PasswordRule {
  import opened JsValues

  const MinLength := 8
  const MaxLength := 12

  /** What the regex `.` matches: any code unit that is not a line terminator. */
  predicate Dot(c: CodeUnit)
  {
    !IsLineTerminator(c)
  }

  /**
   * The regex read part by part: at position 0 the lookahead `.*[A-Z]` finds an
   * upper-case letter at some k preceded only by dots; then `.{8,12}$` must
   * consume the whole input.
   */
  ghost predicate RegexMatches(s: JsString)
  {
    && (exists k :: 0 <= k < |s| && IsAsciiUpper(s[k]) && forall j :: 0 <= j < k ==> Dot(s[j]))
    && MinLength <= |s| <= MaxLength
    && forall j :: 0 <= j < |s| ==> Dot(s[j])
  }

  /** The rule as the error message words it (8 to 12 characters, at least one upper-case letter), read over UTF-16 code units with `[A-Z]` as the upper-case letters and no line terminators. */
  ghost predicate Policy(s: JsString)
  {
    && MinLength <= |s| <= MaxLength
    && (forall j :: 0 <= j < |s| ==> Dot(s[j]))
    && exists k :: 0 <= k < |s| && IsAsciiUpper(s[k])
  }

  /** Whether `.` matches every code unit of s. */
  function AllDots(s: JsString): bool
  {
    s == [] || (Dot(s[0]) && AllDots(s[1..]))
  }

  /** Whether s holds a code unit in `[A-Z]`. */
  function HasUpper(s: JsString): bool
  {
    s != [] && (IsAsciiUpper(s[0]) || HasUpper(s[1..]))
  }

  /** `validatePassword(password)`, which is also the server's check before it hashes. */
  predicate ValidatePassword(p: JsString)
  {
    MinLength <= |p| <= MaxLength && HasUpper(p) && AllDots(p)
  }

  lemma {:induction false} AllDotsMeans(s: JsString)
    ensures AllDots(s) <==> forall j :: 0 <= j < |s| ==> Dot(s[j])
  {
    if s != [] {
      AllDotsMeans(s[1..]);
      assert forall j :: 1 <= j < |s| ==> s[j] == s[1..][j - 1];
    }
  }

  lemma {:induction false} HasUpperMeans(s: JsString)
    ensures HasUpper(s) <==> exists k :: 0 <= k < |s| && IsAsciiUpper(s[k])
  {
    if s != [] {
      HasUpperMeans(s[1..]);
      if !IsAsciiUpper(s[0]) && exists k :: 0 <= k < |s| && IsAsciiUpper(s[k]) {
        var k :| 0 <= k < |s| && IsAsciiUpper(s[k]);
        assert IsAsciiUpper(s[1..][k - 1]);
      }
      if HasUpper(s[1..]) {
        var k :| 0 <= k < |s| - 1 && IsAsciiUpper(s[1..][k]);
        assert IsAsciiUpper(s[k + 1]);
      }
    }
  }

  /** The check accepts exactly what the regex matches, and that is exactly `Policy`: the worded policy read over UTF-16 code units. */
  lemma ValidatePasswordMeans(p: JsString)
    ensures ValidatePassword(p) <==> RegexMatches(p)
    ensures ValidatePassword(p) <==> Policy(p)
  {
    AllDotsMeans(p);
    HasUpperMeans(p);
    if Policy(p) {
      var k :| 0 <= k < |p| && IsAsciiUpper(p[k]);
      assert forall j :: 0 <= j < k ==> Dot(p[j]);
    }
  }

  /** Neither an extra code unit nor a line terminator is forgiven: each rejects on its own. */
  lemma RejectionCases(p: JsString)
    ensures |p| < MinLength || |p| > MaxLength ==> !ValidatePassword(p)
    ensures (exists j :: 0 <= j < |p| && IsLineTerminator(p[j])) ==> !ValidatePassword(p)
    ensures (forall j :: 0 <= j < |p| ==> !IsAsciiUpper(p[j])) ==> !ValidatePassword(p)
  {
    AllDotsMeans(p);
    HasUpperMeans(p);
  }
}

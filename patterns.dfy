/** The two regular expressions of the validator, written as predicates on
    strings, beside the meaning a regular-expression engine gives them. */
module Patterns {

  /** JavaScript's `\s` class (ECMAScript's WhiteSpace and LineTerminator
      code points); `\S` is its complement. */
  predicate IsJsSpace(c: char)
  {
    ('\t' <= c <= '\r') || c == ' ' || c == '\U{A0}' || c == '\U{1680}' || ('\U{2000}' <= c <= '\U{200A}')
    || c == '\U{2028}' || c == '\U{2029}' || c == '\U{202F}' || c == '\U{205F}' || c == '\U{3000}' || c == '\U{FEFF}'
  }

  /** No character of `t` is in `\s`. */
  predicate AllNonSpace(t: string)
  {
    forall i :: 0 <= i < |t| ==> !IsJsSpace(t[i])
  }

  /** `t` matches `\S+` as a whole. */
  ghost predicate NonSpaceRun(t: string)
  {
    |t| > 0 && AllNonSpace(t)
  }

  /** Splitting `t` at an `@` at `p` and a `.` at `q` leaves three `\S+` runs. */
  ghost predicate EmailSplit(t: string, p: int, q: int)
  {
    0 < p < q - 1 && q < |t| - 1 && t[p] == '@' && t[q] == '.'
    && NonSpaceRun(t[..p]) && NonSpaceRun(t[p + 1..q]) && NonSpaceRun(t[q + 1..])
  }

  /** `t` matches `\S+@\S+\.\S+` as a whole: a run, `@`, a run, `.`, a run. */
  ghost predicate WholeEmailMatch(t: string)
  {
    exists p, q :: EmailSplit(t, p, q)
  }

  /** What `/\S+@\S+\.\S+/.test(s)` means: the pattern is not anchored, so it
      succeeds when some substring of `s` matches it as a whole. */
  ghost predicate EmailPatternMatches(s: string)
  {
    exists a, b :: 0 <= a <= b <= |s| && WholeEmailMatch(s[a..b])
  }

  /** An `@` at `p` and a `.` at `q`, at least one character apart, with a
      non-space character before the `@`, after the `.`, and at every
      position between them. */
  predicate ShapedAt(s: string, p: int, q: int)
  {
    1 <= p && p + 2 <= q && q + 2 <= |s|
    && s[p] == '@' && s[q] == '.' && !IsJsSpace(s[p - 1]) && !IsJsSpace(s[q + 1])
    && AllNonSpace(s[p + 1..q])
  }

  /** The email check the validator uses. */
  predicate IsEmailShaped(s: string)
  {
    exists p, q :: 0 <= p < |s| && 0 <= q < |s| && ShapedAt(s, p, q)
  }

  /** `^\d{10}$`: exactly ten characters, all ASCII decimal digits
      (`$` without the multiline flag matches only at the end of the input). */
  predicate IsTenDigits(s: string)
  {
    |s| == 10 && forall i :: 0 <= i < |s| ==> '0' <= s[i] <= '9'
  }

  /** The validator's email check agrees with the regular expression's meaning. */
  lemma EmailShapeIsPattern(s: string)
    ensures IsEmailShaped(s) <==> EmailPatternMatches(s)
  {
    if IsEmailShaped(s) {
      var p, q :| 0 <= p < |s| && 0 <= q < |s| && ShapedAt(s, p, q);
      ShapeIsWholeMatch(s, p, q);
      assert WholeEmailMatch(s[p - 1..q + 2]);
    }
    if EmailPatternMatches(s) {
      var a, b :| 0 <= a <= b <= |s| && WholeEmailMatch(s[a..b]);
      WholeMatchIsShape(s, a, b);
    }
  }

  /** The shortest substring around a shaped `@`/`.` pair matches the whole pattern. */
  lemma ShapeIsWholeMatch(s: string, p: int, q: int)
    requires ShapedAt(s, p, q)
    ensures WholeEmailMatch(s[p - 1..q + 2])
  {
    var t := s[p - 1..q + 2];
    var p', q' := 1, q - p + 1;
    assert t[..p'] == [s[p - 1]];
    assert t[q' + 1..] == [s[q + 1]];
    var inT, inS := t[p' + 1..q'], s[p + 1..q];
    assert |inT| == |inS| && forall k :: 0 <= k < |inT| ==> inT[k] == inS[k];
    assert inT == inS;
    assert EmailSplit(t, p', q');
  }

  /** A substring that matches the whole pattern yields a shaped `@`/`.` pair. */
  lemma WholeMatchIsShape(s: string, a: int, b: int)
    requires 0 <= a <= b <= |s| && WholeEmailMatch(s[a..b])
    ensures IsEmailShaped(s)
  {
    var t := s[a..b];
    var p', q' :| EmailSplit(t, p', q');
    var p, q := a + p', a + q';
    assert s[p - 1] == t[..p'][p' - 1];
    assert s[q + 1] == t[q' + 1..][0];
    var inS, inT := s[p + 1..q], t[p' + 1..q'];
    assert |inS| == |inT| && forall k :: 0 <= k < |inS| ==> inS[k] == inT[k];
    assert inS == inT;
    assert ShapedAt(s, p, q);
  }

  lemma EmailExamples()
    ensures IsEmailShaped("a@b.com") && EmailPatternMatches("a@b.com")
    ensures !IsEmailShaped("foo") && !EmailPatternMatches("foo")
    ensures !IsEmailShaped("a @b.com") && !IsEmailShaped("a@.com")
  {
    var s := "a@b.com";
    assert s[2..3] == "b";
    assert ShapedAt(s, 1, 3);
    EmailShapeIsPattern(s);
    EmailShapeIsPattern("foo");
  }

  lemma PhoneExamples()
    ensures IsTenDigits("1234567890")
    ensures !IsTenDigits("123") && !IsTenDigits("12345678901") && !IsTenDigits("12345 7890")
  {
    var spaced := "12345 7890";
    assert spaced[5] == ' ';
  }
}

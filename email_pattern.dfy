/** The registration e-mail check, the regular expression
    `^[^\s@]+@[^\s@]+\.[^\s@]+$`, stated twice: once as the regular expression
    reads (three runs of non-space, non-`@` characters joined by `@` and `.`),
    and once as the direct check a reader would write (no white space, one `@`
    that is not the first character, and a `.` in the domain with characters on
    both sides), with a proof that the two agree on every string. */
module EmailPattern {

  import opened Js

  /** A character of the class `[^\s@]`. */
  predicate IsRunChar(c: char) {
    !IsWhitespace(c) && c != '@'
  }

  /** A string matching `[^\s@]+`. */
  predicate IsRun(t: string) {
    |t| > 0 && forall k :: 0 <= k < |t| ==> IsRunChar(t[k])
  }

  /** The whole string matches the pattern: it is a + "@" + b + "." + c with
      a, b and c runs; b and c may themselves contain dots. */
  ghost predicate MatchesPattern(s: string) {
    exists i, j :: 0 < i && i + 1 < j && j + 1 < |s| && s[i] == '@' && s[j] == '.'
      && IsRun(s[..i]) && IsRun(s[i + 1..j]) && IsRun(s[j + 1..])
  }

  /** The check as a reader states it. */
  predicate IsEmail(s: string) {
    var at := IndexOf(s, '@');
    && (forall k :: 0 <= k < |s| ==> !IsWhitespace(s[k]))
    && 0 < at < |s|
    && (forall k :: at < k < |s| ==> s[k] != '@')
    && (exists k :: at + 1 < k < |s| - 1 && s[k] == '.')
  }

  /** The direct check accepts exactly the strings the regular expression matches. */
  lemma EmailCheckIsPattern(s: string)
    ensures IsEmail(s) <==> MatchesPattern(s)
  {
  }

  /** An accepted address holds exactly one `@`. */
  lemma AcceptedHasOneAt(s: string)
    requires IsEmail(s)
    ensures Count(s, '@') == 1
  {
    var at := IndexOf(s, '@');
    assert s == s[..at] + [s[at]] + s[at + 1..];
    CountAbsent(s[..at], '@');
    CountAbsent(s[at + 1..], '@');
    CountAppend(s[..at] + [s[at]], s[at + 1..], '@');
    CountAppend(s[..at], [s[at]], '@');
  }
}

/** The two regular expressions of the test-drive form as string predicates
    that follow their structure, each with a plain characterisation. */
module Patterns {
  import opened JsText

  // ---- /^[^\s@]+@[^\s@]+\.[^\s@]+$/ ---------------------------------------

  /** `[^\s@]` */
  predicate EmailChar(c: char) {
    !IsJsWhitespace(c) && c != '@'
  }

  /** `[^\s@]+` matching all of `s` */
  predicate EmailRun(s: string) {
    |s| > 0 && forall i :: 0 <= i < |s| ==> EmailChar(s[i])
  }

  /** The email pattern matches all of `s`: some `@` at `a` and some `.` at
      `b` split it into three runs of characters other than white space and
      `@`. */
  predicate MatchesEmailPattern(s: string) {
    exists a, b | 0 <= a < |s| && 0 <= b < |s| :: EmailSplit(s, a, b)
  }

  predicate EmailSplit(s: string, a: int, b: int) {
    && 0 < a < b < |s| && s[a] == '@' && s[b] == '.'
    && EmailRun(s[..a]) && EmailRun(s[a + 1..b]) && EmailRun(s[b + 1..])
  }

  function Count(s: string, c: char): nat {
    if s == [] then 0 else (if s[0] == c then 1 else 0) + Count(s[1..], c)
  }

  /** `d` has a '.' with at least one character before it and one after. */
  predicate HasInnerDot(d: string) {
    exists j :: 0 < j < |d| - 1 && d[j] == '.'
  }

  /** What the email pattern accepts, said plainly: no white space, exactly
      one '@', something before it, and after it a '.' that is neither the
      first nor the last character. */
  predicate EmailShape(s: string) {
    && (forall i :: 0 <= i < |s| ==> !IsJsWhitespace(s[i]))
    && Count(s, '@') == 1
    && exists a | 0 <= a < |s| :: DomainAfter(s, a)
  }

  /** The '@' at `a` has a non-empty part before it and a domain with an
      inner '.' after it. */
  predicate DomainAfter(s: string, a: int) {
    0 < a < |s| && s[a] == '@' && HasInnerDot(s[a + 1..])
  }

  lemma {:induction false} CountAppend(x: string, y: string, c: char)
    ensures Count(x + y, c) == Count(x, c) + Count(y, c)
  {
    if x == [] {
      assert x + y == y;
    } else {
      assert (x + y)[1..] == x[1..] + y;
      CountAppend(x[1..], y, c);
    }
  }

  lemma {:induction false} CountZeroIff(s: string, c: char)
    ensures Count(s, c) == 0 <==> forall i :: 0 <= i < |s| ==> s[i] != c
  {
    if s != [] {
      CountZeroIff(s[1..], c);
      assert forall i :: 1 <= i < |s| ==> s[i] == s[1..][i - 1];
    }
  }

  /** The '@' count of a string split around one '@'. */
  lemma CountAroundAt(local: string, domain: string)
    ensures Count(local + "@" + domain, '@') == Count(local, '@') + 1 + Count(domain, '@')
  {
    CountAppend(local + "@", domain, '@');
    CountAppend(local, "@", '@');
  }

  lemma EmailPatternGivesShape(s: string)
    requires MatchesEmailPattern(s)
    ensures EmailShape(s)
  {
    var a, b :| 0 <= a < |s| && 0 <= b < |s| && EmailSplit(s, a, b);
    var local, domain := s[..a], s[a + 1..];
    assert s == local + "@" + domain;
    var x, y := s[a + 1..b], s[b + 1..];
    forall i | 0 <= i < |s| && i != a ensures EmailChar(s[i]) {
      if i < a {
        assert s[i] == local[i];
      } else if i < b {
        assert s[i] == x[i - a - 1];
      } else if b < i {
        assert s[i] == y[i - b - 1];
      }
    }
    assert forall i :: 0 <= i < |domain| ==> domain[i] != '@' by {
      forall i | 0 <= i < |domain| ensures domain[i] != '@' {
        assert domain[i] == s[a + 1 + i];
      }
    }
    CountZeroIff(local, '@');
    CountZeroIff(domain, '@');
    CountAroundAt(local, domain);
    assert domain[b - a - 1] == '.';
    assert HasInnerDot(domain);
    assert DomainAfter(s, a);
  }

  /** A string with one '@' has it nowhere but at `a`. */
  lemma OnlyAt(s: string, a: nat)
    requires a < |s| && s[a] == '@' && Count(s, '@') == 1
    ensures forall i :: 0 <= i < |s| && i != a ==> s[i] != '@'
  {
    var local, domain := s[..a], s[a + 1..];
    assert s == local + "@" + domain;
    CountAroundAt(local, domain);
    CountZeroIff(local, '@');
    CountZeroIff(domain, '@');
    forall i | 0 <= i < |s| && i != a ensures s[i] != '@' {
      if i < a { assert s[i] == local[i]; } else { assert s[i] == domain[i - a - 1]; }
    }
  }

  /** A slice of characters other than white space and '@' is a run. */
  lemma RunOfSlice(s: string, lo: nat, hi: nat)
    requires lo < hi <= |s|
    requires forall i :: lo <= i < hi ==> EmailChar(s[i])
    ensures EmailRun(s[lo..hi])
  {
    assert forall i :: 0 <= i < hi - lo ==> s[lo..hi][i] == s[lo + i];
  }

  lemma EmailShapeGivesPattern(s: string)
    requires EmailShape(s)
    ensures MatchesEmailPattern(s)
  {
    var a :| 0 <= a < |s| && DomainAfter(s, a);
    var d := s[a + 1..];
    var j :| 0 < j < |d| - 1 && d[j] == '.';
    var b := a + 1 + j;
    assert s[b] == '.';
    OnlyAt(s, a);
    assert forall i :: 0 <= i < |s| && i != a ==> EmailChar(s[i]);
    RunOfSlice(s, 0, a);
    RunOfSlice(s, a + 1, b);
    RunOfSlice(s, b + 1, |s|);
    assert s[..a] == s[0..a] && s[b + 1..] == s[b + 1..|s|];
    assert EmailSplit(s, a, b);
  }

  /** The email pattern accepts exactly the strings of EmailShape. */
  lemma EmailPatternIff(s: string)
    ensures MatchesEmailPattern(s) <==> EmailShape(s)
  {
    if MatchesEmailPattern(s) {
      EmailPatternGivesShape(s);
    }
    if EmailShape(s) {
      EmailShapeGivesPattern(s);
    }
  }

  /** Two strings the pattern accepts and rejects. */
  lemma EmailExamples()
    ensures MatchesEmailPattern("a@b.c")
    ensures !MatchesEmailPattern("a@b")
  {
    EmailPatternIff("a@b.c");
    assert EmailSplit("a@b.c", 1, 3);
  }

  // ---- /^\d{10}$/ -----------------------------------------------------------

  /** `\d`: without the u flag, only the ASCII digits. */
  predicate IsAsciiDigit(c: char) {
    '0' <= c <= '9'
  }

  /** `\d{n}` matching all of `s`, one digit at a time. */
  predicate RepeatDigits(s: string, n: nat) {
    if n == 0 then s == [] else s != [] && IsAsciiDigit(s[0]) && RepeatDigits(s[1..], n - 1)
  }

  predicate MatchesPhonePattern(s: string) {
    RepeatDigits(s, 10)
  }

  lemma {:induction false} RepeatDigitsIff(s: string, n: nat)
    ensures RepeatDigits(s, n) <==> |s| == n && forall i :: 0 <= i < |s| ==> IsAsciiDigit(s[i])
  {
    if n > 0 && s != [] {
      RepeatDigitsIff(s[1..], n - 1);
      assert forall i :: 1 <= i < |s| ==> s[i] == s[1..][i - 1];
    }
  }

  predicate IsTenDigits(s: string) {
    |s| == 10 && forall i :: 0 <= i < |s| ==> IsAsciiDigit(s[i])
  }

  /** The phone pattern accepts exactly ten ASCII digits and nothing else. */
  lemma PhonePatternIff(s: string)
    ensures MatchesPhonePattern(s) <==> IsTenDigits(s)
  {
    RepeatDigitsIff(s, 10);
  }

  /** The pattern is tested on the untrimmed value: a space before or after
      ten digits makes it fail. */
  lemma PaddedPhoneRejected(s: string)
    ensures !MatchesPhonePattern(" " + s)
    ensures !MatchesPhonePattern(s + " ")
  {
    PhonePatternIff(" " + s);
    PhonePatternIff(s + " ");
    assert (" " + s)[0] == ' ';
    assert (s + " ")[|s|] == ' ';
  }
}

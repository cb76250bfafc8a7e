/**
 * The two field validators of the login form. Each takes the raw field
 * value and returns the message to show, or `None` when the value is
 * acceptable. The email format test, a regular expression in the
 * original, is stated twice: as the language the expression denotes
 * (`MatchesEmailRegex`) and as an explicit check (`IsEmailAddress`),
 * and the two are proved to agree.
 */
module Validators {
  import opened Wrappers

  const EmailRequired := "Email is required"
  const EmailInvalid := "Enter a valid email address"
  const PasswordRequired := "Password is required"
  const PasswordTooShort := "Password must be at least 8 characters"
  const MinPasswordLength := 8

  // ---------------------------------------------------------------------
  // Characters and strings as JavaScript sees them
  // ---------------------------------------------------------------------

  /**
   * The class `\s` of JavaScript regular expressions: the WhiteSpace and
   * LineTerminator code points of ECMAScript (tab, line feed, vertical
   * tab, form feed, carriage return, space, no-break space, the Unicode
   * space separators, line and paragraph separator, byte order mark).
   */
  predicate IsWhitespace(c: char): (r: bool)
    ensures c == ' ' || c == '\t' || c == '\n' || c == '\r' ==> r
    ensures r ==> c != '@' && c != '.'
  {
    || c == '\t' || c == '\n' || c == '\U{000B}' || c == '\U{000C}' || c == '\r'
    || c == ' ' || c == '\U{00A0}' || c == '\U{1680}'
    || ('\U{2000}' <= c <= '\U{200A}')
    || c == '\U{2028}' || c == '\U{2029}' || c == '\U{202F}' || c == '\U{205F}'
    || c == '\U{3000}' || c == '\U{FEFF}'
  }

  /**
   * JavaScript's `length` of a string: the number of UTF-16 code units,
   * so a character outside the Basic Multilingual Plane counts twice.
   */
  function Utf16Length(s: string): (n: nat)
    ensures |s| <= n <= 2 * |s|
    ensures n == |s| <==> forall i :: 0 <= i < |s| ==> s[i] as int < 0x1_0000
  {
    if s == [] then 0
    else
      var rest := Utf16Length(s[1..]);
      assert forall i :: 1 <= i < |s| ==> s[i] == s[1..][i - 1];
      (if s[0] as int < 0x1_0000 then 1 else 2) + rest
  }

  /** The position of the first `c` in `s`, if there is one. */
  function IndexOf(s: string, c: char): (r: Option<nat>)
    ensures r.None? <==> c !in s
    ensures r.Some? ==> r.value < |s| && s[r.value] == c && c !in s[..r.value]
  {
    if s == [] then None
    else if s[0] == c then Some(0)
    else match IndexOf(s[1..], c)
      case None => None
      case Some(k) =>
        assert s[..k + 1] == [s[0]] + s[1..][..k];
        Some(k + 1)
  }

  // ---------------------------------------------------------------------
  // The email format: /^[^\s@]+@[^\s@]+\.[^\s@]+$/
  // ---------------------------------------------------------------------

  /** `[^\s@]`: a character allowed in the local part and in the domain. */
  predicate IsAddressChar(c: char) {
    !IsWhitespace(c) && c != '@'
  }

  /** `[^\s@]+`: a non-empty run of address characters. */
  predicate IsAddressRun(s: string) {
    |s| > 0 && forall i :: 0 <= i < |s| ==> IsAddressChar(s[i])
  }

  /**
   * The language of the email regular expression, anchored at both ends:
   * a local part, `@`, a domain host, `.`, and a last part, each a
   * non-empty run of address characters (the runs may contain `.`).
   */
  ghost predicate MatchesEmailRegex(s: string): (r: bool)
    ensures r ==> |s| >= 5 && '@' in s && s[0] != '@'
  {
    exists local, host, tld ::
      && IsAddressRun(local) && IsAddressRun(host) && IsAddressRun(tld)
      && s == local + "@" + host + "." + tld
  }

  predicate HasNoWhitespace(s: string) {
    forall i :: 0 <= i < |s| ==> !IsWhitespace(s[i])
  }

  /** The domain holds a `.` that is neither its first nor its last character. */
  predicate HasInnerDot(domain: string) {
    exists k :: 0 < k < |domain| - 1 && domain[k] == '.'
  }

  /**
   * The format test made explicit: no whitespace anywhere, exactly one
   * `@`, a non-empty part before it, and an inner `.` in the part after it.
   */
  predicate IsEmailAddress(s: string): (r: bool)
    ensures r ==> |s| >= 5 && '@' in s && s[0] != '@'
  {
    && HasNoWhitespace(s)
    && match IndexOf(s, '@')
       case None => false
       case Some(at) => at > 0 && '@' !in s[at + 1..] && HasInnerDot(s[at + 1..])
  }

  /** A non-empty slice free of whitespace and `@` is a run of address characters. */
  lemma SliceIsAddressRun(s: string, lo: nat, hi: nat)
    requires lo < hi <= |s|
    requires HasNoWhitespace(s) && '@' !in s[lo..hi]
    ensures IsAddressRun(s[lo..hi])
  {
    forall i | 0 <= i < hi - lo ensures IsAddressChar(s[lo..hi][i]) {
      assert s[lo..hi][i] == s[lo + i];
    }
  }

  /** A string cut at two marked positions is the concatenation of the five pieces. */
  lemma CutTwice(s: string, at: nat, dot: nat)
    requires at < dot < |s| && s[at] == '@' && s[dot] == '.'
    ensures s == s[..at] + "@" + s[at + 1..dot] + "." + s[dot + 1..]
  {
    assert s == s[..at] + [s[at]] + s[at + 1..dot] + [s[dot]] + s[dot + 1..];
  }

  /** Every string the explicit check accepts is matched by the regular expression. */
  lemma EmailPredicateImpliesRegex(s: string)
    requires IsEmailAddress(s)
    ensures MatchesEmailRegex(s)
  {
    var at := IndexOf(s, '@').value;
    assert '@' !in s[at + 1..] && HasInnerDot(s[at + 1..]);
    var k :| 0 < k < |s[at + 1..]| - 1 && s[at + 1..][k] == '.';
    var dot := at + 1 + k;
    var local, host, tld := s[..at], s[at + 1..dot], s[dot + 1..];
    assert local == s[0..at];
    SliceIsAddressRun(s, 0, at);
    assert host == s[at + 1..][..k];
    SliceIsAddressRun(s, at + 1, dot);
    assert tld == s[at + 1..][k + 1..] == s[dot + 1..|s|];
    SliceIsAddressRun(s, dot + 1, |s|);
    CutTwice(s, at, dot);
    assert IsAddressRun(local) && IsAddressRun(host) && IsAddressRun(tld);
    assert s == local + "@" + host + "." + tld;
  }

  /** Every string the regular expression matches passes the explicit check. */
  lemma RegexImpliesEmailPredicate(local: string, host: string, tld: string)
    requires IsAddressRun(local) && IsAddressRun(host) && IsAddressRun(tld)
    ensures IsEmailAddress(local + "@" + host + "." + tld)
  {
    var s := local + "@" + host + "." + tld;
    var n := |local|;
    var domain := host + "." + tld;
    assert s == local + "@" + domain;
    assert s[..n] == local;
    assert s[n + 1..] == domain;
    forall i | 0 <= i < |domain| ensures IsAddressChar(domain[i]) || domain[i] == '.' {
      if i < |host| {
        assert domain[i] == host[i];
      } else if i > |host| {
        assert domain[i] == tld[i - |host| - 1];
      }
    }
    forall i | 0 <= i < |s| ensures !IsWhitespace(s[i]) {
      if i < n {
        assert s[i] == local[i];
      } else if i > n {
        assert s[i] == domain[i - n - 1];
      }
    }
    assert '@' !in local by {
      forall i | 0 <= i < |local| ensures local[i] != '@' {
        assert IsAddressChar(local[i]);
      }
    }
    assert '@' !in domain by {
      forall i | 0 <= i < |domain| ensures domain[i] != '@' {
        assert IsAddressChar(domain[i]) || domain[i] == '.';
      }
    }
    var at := IndexOf(s, '@').value;
    assert at == n;
    assert domain[|host|] == '.';
  }

  /** The explicit check accepts exactly the strings the regular expression matches. */
  lemma EmailPredicateMatchesRegex(s: string)
    ensures IsEmailAddress(s) <==> MatchesEmailRegex(s)
  {
    if IsEmailAddress(s) {
      EmailPredicateImpliesRegex(s);
    }
    if MatchesEmailRegex(s) {
      var local, host, tld :|
        && IsAddressRun(local) && IsAddressRun(host) && IsAddressRun(tld)
        && s == local + "@" + host + "." + tld;
      RegexImpliesEmailPredicate(local, host, tld);
    }
  }

  // ---------------------------------------------------------------------
  // The validators
  // ---------------------------------------------------------------------

  /**
   * `validateEmail`: "required" for the empty string (the only falsy
   * string), the format message when the regular expression does not
   * match, otherwise no message.
   */
  function ValidateEmail(value: string): (r: Option<string>)
    ensures r == None || r == Some(EmailRequired) || r == Some(EmailInvalid)
    ensures r == Some(EmailRequired) <==> value == ""
  {
    if value == "" then Some(EmailRequired)
    else if !IsEmailAddress(value) then Some(EmailInvalid)
    else None
  }

  /**
   * `validatePassword`: "required" for the empty string, the length
   * message below 8 UTF-16 code units, otherwise no message.
   */
  function ValidatePassword(value: string): (r: Option<string>)
    ensures r == None || r == Some(PasswordRequired) || r == Some(PasswordTooShort)
    ensures r == Some(PasswordRequired) <==> value == ""
    ensures r == None <==> Utf16Length(value) >= MinPasswordLength
    ensures |value| >= MinPasswordLength ==> r == None
    ensures r == None ==> 2 * |value| >= MinPasswordLength
  {
    if value == "" then Some(PasswordRequired)
    else if Utf16Length(value) < MinPasswordLength then Some(PasswordTooShort)
    else None
  }

  // ---------------------------------------------------------------------
  // Properties of the validators
  // ---------------------------------------------------------------------

  /** `validateEmail` gives no message exactly for the strings the regular expression matches. */
  lemma ValidateEmailMatchesRegex(value: string)
    ensures ValidateEmail(value) == None <==> MatchesEmailRegex(value)
  {
    EmailPredicateMatchesRegex(value);
  }

  /** Any local part, domain host and last part joined as `l@d.t` is accepted. */
  lemma EmailAddressAccepted(local: string, host: string, tld: string)
    requires IsAddressRun(local) && IsAddressRun(host) && IsAddressRun(tld)
    ensures ValidateEmail(local + "@" + host + "." + tld) == None
  {
    RegexImpliesEmailPredicate(local, host, tld);
  }

  /** A non-empty value without any `@` gets the format message. */
  lemma EmailWithoutAtRejected(value: string)
    requires value != "" && '@' !in value
    ensures ValidateEmail(value) == Some(EmailInvalid)
  {
  }

  /** Two `@` anywhere in the value give the format message. */
  lemma EmailWithTwoAtsRejected(value: string, i: nat, j: nat)
    requires i < j < |value| && value[i] == '@' && value[j] == '@'
    ensures ValidateEmail(value) == Some(EmailInvalid)
  {
  }

  /** A whitespace character anywhere in the value gives the format message. */
  lemma EmailWithWhitespaceRejected(value: string, i: nat)
    requires i < |value| && IsWhitespace(value[i])
    ensures ValidateEmail(value) == Some(EmailInvalid)
  {
  }

  /** An `@` at the very start leaves the local part empty: format message. */
  lemma EmailWithEmptyLocalPartRejected(value: string)
    requires |value| > 0 && value[0] == '@'
    ensures ValidateEmail(value) == Some(EmailInvalid)
  {
  }

  /**
   * When no `.` lies strictly inside the part after an `@` (not right
   * after the `@`, not at the end), the value gets the format message.
   */
  lemma EmailWithoutInnerDotRejected(value: string, at: nat)
    requires at < |value| && value[at] == '@'
    requires forall k :: at + 1 < k < |value| - 1 ==> value[k] != '.'
    ensures ValidateEmail(value) == Some(EmailInvalid)
  {
  }

  /** Below 8 code units a non-empty password gets the length message. */
  lemma PasswordTooShortRejected(value: string)
    requires value != "" && Utf16Length(value) < MinPasswordLength
    ensures ValidatePassword(value) == Some(PasswordTooShort)
  {
  }

  /**
   * For a password made only of characters of the Basic Multilingual
   * Plane, where code units and characters coincide, the length message
   * is given exactly for 1 to 7 characters.
   */
  lemma PasswordLengthRuleInBmp(value: string)
    requires forall i :: 0 <= i < |value| ==> value[i] as int < 0x1_0000
    ensures ValidatePassword(value) == Some(PasswordTooShort) <==> 1 <= |value| < MinPasswordLength
  {
  }

  /**
   * Four characters outside the Basic Multilingual Plane are eight code
   * units, so they pass the "at least 8 characters" check.
   */
  lemma FourAstralCharactersAccepted()
    ensures ValidatePassword("\U{1F511}\U{1F511}\U{1F511}\U{1F511}") == None
  {
  }
}

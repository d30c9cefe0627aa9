/** The three field validators of the audit form: name, company name and email.
    Each maps the field's current text to a verdict {isValid, message}. Text is a
    `seq<char>`, and its length stands for JavaScript's `string.length`. */
module FieldValidation {

  /** The verdict a validator returns for one field. */
  datatype Verdict = Verdict(isValid: bool, message: string)

  const NameTooShort := "Name must be at least 2 characters"
  const NameTooLong := "Name must be less than 50 characters"
  const CompanyTooShort := "Company name must be at least 2 characters"
  const CompanyTooLong := "Company name must be less than 100 characters"
  const EmailRequired := "Email is required"
  const EmailMalformed := "Please enter a valid email"
  const LooksGood := "Looks good!"
  const EmailAccepted := "Valid email!"

  /** The name is accepted when it has from 2 to 50 characters. Length 50 is
      accepted although the rejection message says "less than 50". */
  function ValidateName(name: string): (r: Verdict)
    ensures r.isValid <==> 2 <= |name| <= 50
    ensures |name| < 2 ==> r.message == NameTooShort
    ensures |name| > 50 ==> r.message == NameTooLong
    ensures r.isValid ==> r.message == LooksGood
  {
    if |name| < 2 then Verdict(false, NameTooShort)
    else if |name| > 50 then Verdict(false, NameTooLong)
    else Verdict(true, LooksGood)
  }

  /** The company name is accepted when it has from 2 to 100 characters. */
  function ValidateCompanyName(companyName: string): (r: Verdict)
    ensures r.isValid <==> 2 <= |companyName| <= 100
    ensures |companyName| < 2 ==> r.message == CompanyTooShort
    ensures |companyName| > 100 ==> r.message == CompanyTooLong
    ensures r.isValid ==> r.message == LooksGood
  {
    if |companyName| < 2 then Verdict(false, CompanyTooShort)
    else if |companyName| > 100 then Verdict(false, CompanyTooLong)
    else Verdict(true, LooksGood)
  }

  // ---------------------------------------------------------------------
  // The email pattern  ^[^\s@]+@[^\s@]+\.[^\s@]+$
  // ---------------------------------------------------------------------

  /** The characters JavaScript's `\s` matches: the ECMAScript WhiteSpace and
      LineTerminator code points. */
  predicate IsWhitespace(c: char)
    ensures c == ' ' || c == '\t' || c == '\n' || c == '\r' ==> IsWhitespace(c)
    ensures IsWhitespace(c) ==> c != '@' && c != '.' && c as int < 0x10000
  {
    var n := c as int;
    n == 0x09 || n == 0x0A || n == 0x0B || n == 0x0C || n == 0x0D || n == 0x20 ||
    n == 0xA0 || n == 0x1680 || (0x2000 <= n <= 0x200A) || n == 0x2028 || n == 0x2029 ||
    n == 0x202F || n == 0x205F || n == 0x3000 || n == 0xFEFF
  }

  /** The character class `[^\s@]`. */
  predicate IsAtomChar(c: char)
  {
    !IsWhitespace(c) && c != '@'
  }

  predicate AllAtomChars(s: string)
  {
    forall k | 0 <= k < |s| :: IsAtomChar(s[k])
  }

  /** The repetition `[^\s@]+`. */
  predicate AtomRun(s: string)
  {
    |s| > 0 && AllAtomChars(s)
  }

  /** The text `local@host.tld` built from the three runs of the pattern. */
  function Assemble(local: string, host: string, tld: string): (s: string)
    ensures |s| == |local| + |host| + |tld| + 2
    ensures s[|local|] == '@' && s[|local| + 1 + |host|] == '.'
    ensures AllAtomChars(local) && AllAtomChars(host) && AllAtomChars(tld) ==>
              forall k | 0 <= k < |s| :: !IsWhitespace(s[k])
  {
    var s := local + "@" + host + "." + tld;
    assert forall k | 0 <= k < |local| :: s[k] == local[k];
    assert forall k | |local| < k <= |local| + |host| :: s[k] == host[k - |local| - 1];
    assert forall k | |local| + 1 + |host| < k < |s| :: s[k] == tld[k - |local| - 2 - |host|];
    s
  }

  /** What the anchored regular expression matches: the whole text splits
      into three runs of `[^\s@]+` joined by `@` and by `.`. */
  ghost predicate MatchesEmailRegex(s: string)
    ensures MatchesEmailRegex(s) ==>
              |s| >= 5 && s[0] != '@' && forall k | 0 <= k < |s| :: !IsWhitespace(s[k])
  {
    exists local, host, tld ::
      s == Assemble(local, host, tld) && AtomRun(local) && AtomRun(host) && AtomRun(tld)
  }

  /** Index of the first occurrence of `x` in `s`, or `|s|` when there is none. */
  function IndexOf(s: string, x: char): (i: nat)
    ensures i <= |s|
    ensures i < |s| ==> s[i] == x
    ensures forall k | 0 <= k < i :: s[k] != x
  {
    if s == [] then 0
    else if s[0] == x then 0
    else 1 + IndexOf(s[1..], x)
  }

  /** The part after the `@`: no whitespace, no further `@`, and a `.` that is
      neither its first nor its last character. */
  predicate DomainPattern(d: string)
  {
    AllAtomChars(d) && exists j | 0 < j < |d| - 1 :: d[j] == '.'
  }

  /** A decision procedure for the regular expression: the first `@` is not
      the first character, the part before it holds no whitespace, and the part
      after it satisfies DomainPattern. */
  predicate EmailPattern(s: string)
    ensures EmailPattern(s) ==>
              |s| >= 5 && forall k | 0 <= k < |s| :: !IsWhitespace(s[k])
    ensures EmailPattern(s) ==>
              0 < IndexOf(s, '@') < |s| && forall k | 0 <= k < |s| && s[k] == '@' :: k == IndexOf(s, '@')
  {
    var at := IndexOf(s, '@');
    var ok := 0 < at < |s| && AllAtomChars(s[..at]) && DomainPattern(s[at + 1..]);
    assert ok ==> forall k | 0 <= k < |s| && k != at :: IsAtomChar(s[k]) by {
      if ok {
        forall k | 0 <= k < |s| && k != at ensures IsAtomChar(s[k]) {
          if k < at { assert s[..at][k] == s[k]; } else { assert s[at + 1..][k - at - 1] == s[k]; }
        }
      }
    }
    ok
  }

  lemma AllAtomCharsConcat(a: string, b: string)
    requires AllAtomChars(a) && AllAtomChars(b)
    ensures AllAtomChars(a + b)
  {
    forall k | 0 <= k < |a + b| ensures IsAtomChar((a + b)[k]) {
      if k < |a| { assert (a + b)[k] == a[k]; } else { assert (a + b)[k] == b[k - |a|]; }
    }
  }

  /** Every text the decision procedure accepts matches the regular expression. */
  lemma EmailPatternSound(s: string)
    requires EmailPattern(s)
    ensures MatchesEmailRegex(s)
  {
    var at := IndexOf(s, '@');
    var d := s[at + 1..];
    var j :| 0 < j < |d| - 1 && d[j] == '.';
    var local, host, tld := s[..at], d[..j], d[j + 1..];
    assert d == host + "." + tld;
    assert s == local + "@" + d;
    assert s == Assemble(local, host, tld);
    assert AtomRun(local) && AtomRun(host) && AtomRun(tld);
  }

  /** Every text the regular expression matches is accepted by the decision procedure. */
  lemma EmailPatternComplete(s: string)
    requires MatchesEmailRegex(s)
    ensures EmailPattern(s)
  {
    var local, host, tld :| s == Assemble(local, host, tld) &&
      AtomRun(local) && AtomRun(host) && AtomRun(tld);
    var at := |local|;
    assert forall k | 0 <= k < at :: s[k] == local[k];
    assert IndexOf(s, '@') == at;
    assert s[..at] == local;
    var d := s[at + 1..];
    assert d == host + "." + tld;
    assert d[|host|] == '.';
    assert IsAtomChar('.');
    AllAtomCharsConcat(host, ".");
    AllAtomCharsConcat(host + ".", tld);
    assert DomainPattern(d);
  }

  /** The decision procedure accepts exactly the texts the regular expression matches. */
  lemma EmailPatternIffRegex(s: string)
    ensures EmailPattern(s) <==> MatchesEmailRegex(s)
  {
    if EmailPattern(s) {
      EmailPatternSound(s);
    }
    if MatchesEmailRegex(s) {
      EmailPatternComplete(s);
    }
  }

  /** An empty email gets the "required" message; a non-empty one that the
      regular expression does not match gets the distinct "valid email" message. */
  function ValidateEmail(email: string): (r: Verdict)
    ensures r.isValid <==> MatchesEmailRegex(email)
    ensures email == [] ==> r == Verdict(false, EmailRequired)
    ensures email != [] && !MatchesEmailRegex(email) ==> r == Verdict(false, EmailMalformed)
    ensures r.isValid ==> r.message == EmailAccepted
  {
    EmailPatternIffRegex(email);
    if email == [] then Verdict(false, EmailRequired)
    else if !EmailPattern(email) then Verdict(false, EmailMalformed)
    else Verdict(true, EmailAccepted)
  }

  /** A valid email has no whitespace anywhere. */
  lemma WhitespaceRejected(email: string, k: nat)
    requires k < |email| && IsWhitespace(email[k])
    ensures ValidateEmail(email) == Verdict(false, EmailMalformed)
  {
    EmailPatternIffRegex(email);
  }

  /** A valid email has no second `@`. */
  lemma TwoAtSignsRejected(email: string, i: nat, j: nat)
    requires i < j < |email| && email[i] == '@' && email[j] == '@'
    ensures ValidateEmail(email) == Verdict(false, EmailMalformed)
  {
    EmailPatternIffRegex(email);
  }

  /** A valid email has a `.` after its `@`, so `a@b` is rejected. */
  lemma NoDotAfterAtRejected(email: string, at: nat)
    requires at < |email| && email[at] == '@'
    requires forall k | at < k < |email| :: email[k] != '.'
    ensures ValidateEmail(email) == Verdict(false, EmailMalformed)
  {
    EmailPatternIffRegex(email);
  }

  /** A valid email has a non-empty part before its first `@`. */
  lemma LeadingAtRejected(email: string)
    requires |email| > 0 && email[0] == '@'
    ensures ValidateEmail(email) == Verdict(false, EmailMalformed)
  {
    EmailPatternIffRegex(email);
  }

  /** `a@b.c` is the shortest kind of text the pattern accepts. */
  lemma MinimalEmailAccepted()
    ensures ValidateEmail("a@b.c") == Verdict(true, EmailAccepted)
  {
    assert "a@b.c" == Assemble("a", "b", "c");
  }

  /** `a@b` is rejected: its domain has no dot. */
  lemma DotlessDomainExample()
    ensures ValidateEmail("a@b") == Verdict(false, EmailMalformed)
  {
    NoDotAfterAtRejected("a@b", 1);
  }

  /** A non-empty text without `@` gets the "valid email" message. */
  lemma NoAtSignRejected(email: string)
    requires email != [] && '@' !in email
    ensures ValidateEmail(email) == Verdict(false, EmailMalformed)
  {
    EmailPatternIffRegex(email);
  }

}

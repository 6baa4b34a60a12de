/**
 * Small validators and formatters: the password-strength check, the display
 * name builder and the email-format check.
 */
module Common {
  import opened Wrappers

  // ---------------------------------------------------------------------
  // Character classes
  // ---------------------------------------------------------------------

  predicate IsUpper(c: char) { 'A' <= c <= 'Z' }
  predicate IsLower(c: char) { 'a' <= c <= 'z' }
  predicate IsLetter(c: char) { IsUpper(c) || IsLower(c) }
  predicate IsDigit(c: char) { '0' <= c <= '9' }

  /** The class `[!@#$%^&*(),.?":{}|<>]`. */
  predicate IsSpecial(c: char) { c in "!@#$%^&*(),.?\":{}|<>" }

  /** The characters Python's `str.strip()` removes (those for which `str.isspace()` holds). */
  predicate IsSpace(c: char)
  {
    c in "\t\n\U{0B}\U{0C}\r\U{1C}\U{1D}\U{1E}\U{1F} \U{85}\U{A0}\U{1680}"
    || ('\U{2000}' <= c <= '\U{200A}')
    || c in "\U{2028}\U{2029}\U{202F}\U{205F}\U{3000}"
  }

  /** Some character of `s` is in the class. */
  predicate HasUpper(s: string) { exists i :: 0 <= i < |s| && IsUpper(s[i]) }
  predicate HasLower(s: string) { exists i :: 0 <= i < |s| && IsLower(s[i]) }
  predicate HasDigit(s: string) { exists i :: 0 <= i < |s| && IsDigit(s[i]) }
  predicate HasSpecial(s: string) { exists i :: 0 <= i < |s| && IsSpecial(s[i]) }

  // ---------------------------------------------------------------------
  // Password strength
  // ---------------------------------------------------------------------

  const MinPasswordLength: int := 8
  const LengthError: string := "Password must be at least 8 characters long"
  const UpperError: string := "Password must contain at least one uppercase letter"
  const LowerError: string := "Password must contain at least one lowercase letter"
  const DigitError: string := "Password must contain at least one number"
  const SpecialError: string := "Password must contain at least one special character"

  /** The error of each check, in the order the checks run. */
  const CheckErrors: seq<string> := [LengthError, UpperError, LowerError, DigitError, SpecialError]

  /** The `feedback` dictionary. */
  datatype PasswordFeedback = PasswordFeedback(isValid: bool, errors: seq<string>, score: int)

  /** Whether each of the five checks passes, in order: length, upper case,
      lower case, digit, special character. */
  function Checks(password: string): (c: seq<bool>)
    ensures |c| == |CheckErrors|
  {
    [|password| >= MinPasswordLength, HasUpper(password), HasLower(password),
     HasDigit(password), HasSpecial(password)]
  }

  /** The number of passing checks among the first `k`. */
  function CountPassed(c: seq<bool>, k: nat): (n: nat)
    requires k <= |c|
    ensures n <= k
  {
    if k == 0 then 0 else CountPassed(c, k - 1) + (if c[k - 1] then 1 else 0)
  }

  /** All of the first `k` checks pass exactly when `k` of them are counted. */
  lemma {:induction false} FullCountIffAllPass(c: seq<bool>, k: nat)
    requires k <= |c|
    ensures CountPassed(c, k) == k <==> forall j :: 0 <= j < k ==> c[j]
  {
    if k > 0 {
      FullCountIffAllPass(c, k - 1);
    }
  }

  /** The messages of the failing checks among the first `k`, in the order of the checks. */
  function FailedMessages(c: seq<bool>, messages: seq<string>, k: nat): (r: seq<string>)
    requires k <= |c| == |messages|
    ensures CountPassed(c, k) + |r| == k
    ensures forall x :: x in r ==> x in messages
    ensures forall j :: 0 <= j < k && !c[j] ==> messages[j] in r
  {
    if k == 0 then []
    else FailedMessages(c, messages, k - 1) + (if c[k - 1] then [] else [messages[k - 1]])
  }

  /** With distinct messages, a message is reported exactly when its check fails. */
  lemma {:induction false} FailedMessagesNameFailures(c: seq<bool>, messages: seq<string>, k: nat, j: int)
    requires k <= |c| == |messages| && 0 <= j < k
    requires forall i1, i2 :: 0 <= i1 < i2 < |messages| ==> messages[i1] != messages[i2]
    ensures messages[j] in FailedMessages(c, messages, k) <==> !c[j]
  {
    if j < k - 1 {
      FailedMessagesNameFailures(c, messages, k - 1, j);
      assert messages[k - 1] != messages[j];
    } else if c[j] {
      FailedMessagesOnlyFrom(c, messages, k - 1, j);
    }
  }

  /** The messages among the first `k` come from the first `k` checks. */
  lemma {:induction false} FailedMessagesOnlyFrom(c: seq<bool>, messages: seq<string>, k: nat, j: int)
    requires k <= |c| == |messages| && k <= j < |messages|
    requires forall i1, i2 :: 0 <= i1 < i2 < |messages| ==> messages[i1] != messages[i2]
    ensures messages[j] !in FailedMessages(c, messages, k)
  {
    if k > 0 {
      FailedMessagesOnlyFrom(c, messages, k - 1, j);
      assert messages[k - 1] != messages[j];
    }
  }

  /** Runs the five checks in order; each one either adds a point or appends
      its error, and all but the special-character check also clear `isValid`
      when they fail. */
  method ValidatePasswordStrength(password: string) returns (feedback: PasswordFeedback)
    ensures feedback.score == CountPassed(Checks(password), 5)
    ensures feedback.errors == FailedMessages(Checks(password), CheckErrors, 5)
    ensures 0 <= feedback.score <= 5 && feedback.score + |feedback.errors| == 5
    ensures feedback.isValid <==>
              |password| >= MinPasswordLength && HasUpper(password) && HasLower(password) && HasDigit(password)
  {
    ghost var c := Checks(password);
    var isValid := true;
    var errors: seq<string> := [];
    var score := 0;

    if |password| < MinPasswordLength {
      errors := errors + [LengthError];
      isValid := false;
    } else {
      score := score + 1;
    }
    assert score == CountPassed(c, 1) && errors == FailedMessages(c, CheckErrors, 1);

    if !HasUpper(password) {
      errors := errors + [UpperError];
      isValid := false;
    } else {
      score := score + 1;
    }
    assert score == CountPassed(c, 2) && errors == FailedMessages(c, CheckErrors, 2);

    if !HasLower(password) {
      errors := errors + [LowerError];
      isValid := false;
    } else {
      score := score + 1;
    }
    assert score == CountPassed(c, 3) && errors == FailedMessages(c, CheckErrors, 3);

    if !HasDigit(password) {
      errors := errors + [DigitError];
      isValid := false;
    } else {
      score := score + 1;
    }
    assert score == CountPassed(c, 4) && errors == FailedMessages(c, CheckErrors, 4);

    if !HasSpecial(password) {
      errors := errors + [SpecialError];
    } else {
      score := score + 1;
    }

    feedback := PasswordFeedback(isValid, errors, score);
  }

  /** Every failing check, and only a failing check, contributes its message. */
  lemma PasswordErrorsNameFailingChecks(password: string, k: int)
    requires 0 <= k < |CheckErrors|
    ensures CheckErrors[k] in FailedMessages(Checks(password), CheckErrors, 5) <==> !Checks(password)[k]
  {
    FailedMessagesNameFailures(Checks(password), CheckErrors, 5, k);
  }

  // ---------------------------------------------------------------------
  // Display name
  // ---------------------------------------------------------------------

  /** The number of leading whitespace characters. */
  function LeadingSpace(s: string): (n: nat)
    ensures n <= |s|
    ensures forall k :: 0 <= k < n ==> IsSpace(s[k])
    ensures n < |s| ==> !IsSpace(s[n])
  {
    if |s| > 0 && IsSpace(s[0]) then 1 + LeadingSpace(s[1..]) else 0
  }

  /** The length of `s` without its trailing whitespace. */
  function TrailingSpaceStart(s: string): (n: nat)
    ensures n <= |s|
    ensures forall k :: n <= k < |s| ==> IsSpace(s[k])
    ensures n > 0 ==> !IsSpace(s[n - 1])
  {
    if |s| > 0 && IsSpace(s[|s| - 1]) then TrailingSpaceStart(s[..|s| - 1]) else |s|
  }

  /** Python's `str.strip()`: the contiguous part of `s` left after removing
      leading and trailing whitespace. */
  function Strip(s: string): (r: string)
    ensures LeadingSpace(s) + |r| <= |s| && r == s[LeadingSpace(s)..LeadingSpace(s) + |r|]
    ensures forall k :: 0 <= k < |s| && !(LeadingSpace(s) <= k < LeadingSpace(s) + |r|) ==> IsSpace(s[k])
    ensures r != [] ==> !IsSpace(r[0]) && !IsSpace(r[|r| - 1])
    ensures r == [] <==> forall k :: 0 <= k < |s| ==> IsSpace(s[k])
  {
    var t := s[LeadingSpace(s)..];
    t[..TrailingSpaceStart(t)]
  }

  /** Stripping twice removes nothing more. */
  lemma StripIdempotent(s: string)
    ensures Strip(Strip(s)) == Strip(s)
  {
    var r := Strip(s);
    if r != [] {
      assert LeadingSpace(r) == 0;
      assert r[0..] == r;
      assert TrailingSpaceStart(r) == |r|;
    }
  }

  /** Python truthiness of an optional string: `None` and `""` are false. */
  predicate Present(name: Option<string>)
  {
    name.Some? && name.value != ""
  }

  const Anonymous: string := "Anonymous"

  /** Both names stripped and joined by one space; one present name stripped;
      "Anonymous" when neither is present. */
  function FormatDisplayName(firstName: Option<string>, lastName: Option<string>): (r: string)
    ensures !Present(firstName) && !Present(lastName) ==> r == Anonymous
    ensures Present(firstName) && Present(lastName) ==>
              var f := Strip(firstName.value);
              |r| == |f| + 1 + |Strip(lastName.value)|
              && r[..|f|] == f && r[|f|] == ' ' && r[|f| + 1..] == Strip(lastName.value)
    ensures Present(firstName) && !Present(lastName) ==> r == Strip(firstName.value)
    ensures !Present(firstName) && Present(lastName) ==> r == Strip(lastName.value)
    ensures r == [] <==>
              (Present(firstName) != Present(lastName)
               && var name := if Present(firstName) then firstName.value else lastName.value;
                  forall k :: 0 <= k < |name| ==> IsSpace(name[k]))
  {
    if Present(firstName) && Present(lastName) then Strip(firstName.value) + " " + Strip(lastName.value)
    else if Present(firstName) then Strip(firstName.value)
    else if Present(lastName) then Strip(lastName.value)
    else Anonymous
  }

  // ---------------------------------------------------------------------
  // Email
  // ---------------------------------------------------------------------

  predicate IsLocalChar(c: char) { IsLetter(c) || IsDigit(c) || c in "._%+-" }
  predicate IsDomainChar(c: char) { IsLetter(c) || IsDigit(c) || c in ".-" }

  /** `e` splits as local part `e[..at]`, `@`, domain `e[at+1..dot]`, `.`, and a
      top-level domain `e[dot+1..]` of two or more letters. */
  predicate IsEmailSplit(e: string, at: int, dot: int)
  {
    1 <= at && at + 2 <= dot && dot + 3 <= |e| && e[at] == '@' && e[dot] == '.'
    && (forall k :: 0 <= k < at ==> IsLocalChar(e[k]))
    && (forall k :: at < k < dot ==> IsDomainChar(e[k]))
    && (forall k :: dot < k < |e| ==> IsLetter(e[k]))
  }

  /** The whole of `e` matches `[a-zA-Z0-9._%+-]+@[a-zA-Z0-9.-]+\.[a-zA-Z]{2,}`. */
  ghost predicate EmailGrammar(e: string)
  {
    exists at, dot :: IsEmailSplit(e, at, dot)
  }

  /** Index of the first `c` in `s`, or `|s|` when there is none. */
  function IndexOf(s: string, c: char): (i: nat)
    ensures i <= |s| && (i < |s| ==> s[i] == c)
    ensures forall k :: 0 <= k < i ==> s[k] != c
  {
    if |s| == 0 then 0 else if s[0] == c then 0 else 1 + IndexOf(s[1..], c)
  }

  /** Index of the last `c` in `s`, or -1 when there is none. */
  function LastIndexOf(s: string, c: char): (i: int)
    ensures -1 <= i < |s| && (i >= 0 ==> s[i] == c)
    ensures forall k :: i < k < |s| ==> s[k] != c
  {
    if |s| == 0 then -1 else if s[|s| - 1] == c then |s| - 1 else LastIndexOf(s[..|s| - 1], c)
  }

  /** The only split that can work is at the first `@` and the last `.`. */
  predicate MatchesEmail(e: string)
  {
    IsEmailSplit(e, IndexOf(e, '@'), LastIndexOf(e, '.'))
  }

  /** The deterministic check decides the grammar. */
  lemma MatchesEmailDecidesGrammar(e: string)
    ensures MatchesEmail(e) <==> EmailGrammar(e)
  {
    if EmailGrammar(e) {
      var at, dot :| IsEmailSplit(e, at, dot);
      assert IndexOf(e, '@') == at by {
        assert !IsLocalChar('@');
      }
      assert LastIndexOf(e, '.') == dot by {
        assert !IsLetter('.');
      }
    }
  }

  /** The anchored email pattern matches the whole of `email`, or all of it
      but one final newline, since `$` also matches just before that newline. */
  function ValidateEmail(email: string): (ok: bool)
    ensures ok <==>
              EmailGrammar(email)
              || (|email| > 0 && email[|email| - 1] == '\n' && EmailGrammar(email[..|email| - 1]))
  {
    MatchesEmailDecidesGrammar(email);
    MatchesEmailDecidesGrammar(email[..if |email| > 0 then |email| - 1 else 0]);
    MatchesEmail(email) || (|email| > 0 && email[|email| - 1] == '\n' && MatchesEmail(email[..|email| - 1]))
  }

  /** Exactly one `@` appears in an accepted address without a final newline. */
  lemma AcceptedEmailHasOneAt(email: string, i: int, j: int)
    requires EmailGrammar(email)
    requires 0 <= i < j < |email|
    ensures !(email[i] == '@' && email[j] == '@')
  {
    var at, dot :| IsEmailSplit(email, at, dot);
    assert !IsLocalChar('@') && !IsDomainChar('@') && !IsLetter('@');
  }

  lemma AcceptsPlainAddress()
    ensures ValidateEmail("driver@team.com")
  {
    assert IsEmailSplit("driver@team.com", 6, 11);
  }

  /** The trailing newline that Python's `$` lets through. */
  lemma AcceptsAddressWithFinalNewline()
    ensures ValidateEmail("driver@team.com\n")
  {
    assert "driver@team.com\n"[..15] == "driver@team.com";
    assert IsEmailSplit("driver@team.com", 6, 11);
  }

  lemma RejectsOneLetterTopLevelDomain()
    ensures !ValidateEmail("driver@team.c")
  {
    var e := "driver@team.c";
    assert !EmailGrammar(e);
    assert e[..12] != e by { assert |e[..12]| != |e|; }
  }
}

/**
 * Input validation and sanitisation shared by the forms: the length limits,
 * trimming and truncation, the amount range, the e-mail shape and the
 * password length rule.
 */
module Validation {
  import opened Wrappers

  // The limits of MAX_LENGTHS, one per kind of input.
  const MaxChatMessage: nat := 1000
  const MaxPostItText: nat := 300
  const MaxTaskText: nat := 200
  const MaxShoppingItem: nat := 150
  const MaxExpenseDescription: nat := 200
  const MaxCalendarTitle: nat := 150
  const MaxCalendarDescription: nat := 500
  const MaxEmail: nat := 254
  const MaxPassword: nat := 128
  const MaxFlatCode: nat := 11
  const MaxBulletinText: nat := 500

  // ---------------------------------------------------------------------------
  // Trimming and truncation
  // ---------------------------------------------------------------------------

  /**
   * The characters JavaScript's `trim` removes and the regular-expression
   * class `\s` matches: the ECMAScript WhiteSpace and LineTerminator sets.
   */
  predicate IsSpace(c: char) {
    || c == '\U{0009}' || c == '\U{000A}' || c == '\U{000B}' || c == '\U{000C}' || c == '\U{000D}'
    || c == '\U{0020}' || c == '\U{00A0}' || c == '\U{1680}'
    || ('\U{2000}' <= c <= '\U{200A}')
    || c == '\U{2028}' || c == '\U{2029}' || c == '\U{202F}' || c == '\U{205F}' || c == '\U{3000}'
    || c == '\U{FEFF}'
  }

  predicate AllSpace(s: string) {
    forall k | 0 <= k < |s| :: IsSpace(s[k])
  }

  /** The number of white-space characters `s` starts with. */
  function LeadingSpaces(s: string): (n: nat)
    ensures n <= |s| && forall k | 0 <= k < n :: IsSpace(s[k])
    ensures n < |s| ==> !IsSpace(s[n])
  {
    if s == [] || !IsSpace(s[0]) then 0 else 1 + LeadingSpaces(s[1..])
  }

  /** The number of white-space characters `s` ends with. */
  function TrailingSpaces(s: string): (n: nat)
    ensures n <= |s| && forall k | |s| - n <= k < |s| :: IsSpace(s[k])
    ensures n < |s| ==> !IsSpace(s[|s| - n - 1])
  {
    if s == [] || !IsSpace(s[|s| - 1]) then 0 else 1 + TrailingSpaces(s[..|s| - 1])
  }

  /**
   * `String.prototype.trim`: the part of `s` between its leading and trailing
   * white space.
   */
  function Trim(s: string): (r: string)
    ensures LeadingSpaces(s) + |r| <= |s|
    ensures r == s[LeadingSpaces(s)..LeadingSpaces(s) + |r|]
    ensures forall k | 0 <= k < LeadingSpaces(s) :: IsSpace(s[k])
    ensures forall k | LeadingSpaces(s) + |r| <= k < |s| :: IsSpace(s[k])
    ensures r != [] ==> !IsSpace(r[0]) && !IsSpace(r[|r| - 1])
  {
    var t := s[LeadingSpaces(s)..];
    t[..|t| - TrailingSpaces(t)]
  }

  /** Trimming twice changes nothing more. */
  lemma TrimIdempotent(s: string)
    ensures Trim(Trim(s)) == Trim(s)
  {
    var r := Trim(s);
    if r != [] {
      assert LeadingSpaces(r) == 0;
      assert TrailingSpaces(r) == 0;
    }
  }

  /** Text that is empty or only white space trims to the empty string. */
  lemma TrimBlank(s: string)
    requires AllSpace(s)
    ensures Trim(s) == ""
  {
  }

  /** Text with no white space at either end is its own trim. */
  lemma TrimTrimmed(s: string)
    requires s != [] ==> !IsSpace(s[0]) && !IsSpace(s[|s| - 1])
    ensures Trim(s) == s
  {
  }

  /**
   * `String.prototype.slice(0, end)`: a negative `end` counts back from the
   * end of the string, and `end` is clamped to the string.
   */
  function SliceTo(s: string, end: int): (r: string)
    ensures 0 <= end ==> r == s[..if end <= |s| then end else |s|]
    ensures end < 0 ==> r == s[..if |s| + end >= 0 then |s| + end else 0]
  {
    var stop := if end < 0 then (if |s| + end >= 0 then |s| + end else 0)
                else if end <= |s| then end else |s|;
    s[..stop]
  }

  /** `sanitizeText`: trim, then keep at most `maxLength` characters. */
  function SanitizeText(input: string, maxLength: int): (r: string)
    ensures r <= Trim(input)
    ensures 0 <= maxLength ==> |r| == if |Trim(input)| <= maxLength then |Trim(input)| else maxLength
    ensures r != [] ==> !IsSpace(r[0])
  {
    SliceTo(Trim(input), maxLength)
  }

  /** Blank input sanitises to the empty string. */
  lemma SanitizeBlank(input: string, maxLength: int)
    requires AllSpace(input)
    ensures SanitizeText(input, maxLength) == ""
  {
    TrimBlank(input);
  }

  // ---------------------------------------------------------------------------
  // Amounts
  // ---------------------------------------------------------------------------

  /** The outcome of `parseFloat`: a number, an infinity or NaN. */
  datatype Parsed = NaN | Finite(value: real) | Infinity | NegativeInfinity

  /** JavaScript's `a > b` on a parsed number and a finite constant: false for NaN. */
  predicate GreaterThan(a: Parsed, b: real) {
    match a
    case NaN => false
    case Finite(v) => v > b
    case Infinity => true
    case NegativeInfinity => false
  }

  /** JavaScript's `a <= b` on a parsed number and a finite constant: false for NaN. */
  predicate AtMost(a: Parsed, b: real) {
    match a
    case NaN => false
    case Finite(v) => v <= b
    case Infinity => false
    case NegativeInfinity => true
  }

  const MaxAmount: real := 999999.0

  /** `isValidAmount`, given what `parseFloat` made of the text. */
  function IsValidAmount(num: Parsed): (ok: bool)
    ensures ok <==> num.Finite? && 0.0 < num.value <= MaxAmount
  {
    !num.NaN? && GreaterThan(num, 0.0) && AtMost(num, MaxAmount)
  }

  // ---------------------------------------------------------------------------
  // E-mail addresses
  // ---------------------------------------------------------------------------

  /** A character the class `[^\s@]` admits. */
  predicate Plain(c: char) { !IsSpace(c) && c != '@' }

  predicate AllPlain(s: string) {
    forall k | 0 <= k < |s| :: Plain(s[k])
  }

  /**
   * What `/^[^\s@]+@[^\s@]+\.[^\s@]+$/` accepts, stated with the split points
   * the regular expression chooses: a non-empty local part, the `@`, then a
   * domain that has a `.` with something on both sides; no white space and no
   * other `@` anywhere.
   */
  ghost predicate EmailPattern(s: string) {
    exists at: nat, dot: nat | 1 <= at && at + 2 <= dot && dot + 2 <= |s| ::
      && s[at] == '@' && s[dot] == '.'
      && AllPlain(s[..at]) && AllPlain(s[at + 1..dot]) && AllPlain(s[dot + 1..])
  }

  /** The position of the first `@`, or |s| when there is none. */
  function FirstAt(s: string): (i: nat)
    ensures i <= |s| && (i < |s| ==> s[i] == '@')
    ensures forall k | 0 <= k < i :: s[k] != '@'
  {
    if s == [] || s[0] == '@' then 0 else 1 + FirstAt(s[1..])
  }

  /** Whether `s` has a `.` at some position in lo..hi-1. */
  function DotBetween(s: string, lo: nat, hi: nat): (found: bool)
    requires lo <= hi <= |s|
    ensures found <==> exists k | lo <= k < hi :: s[k] == '.'
    decreases hi - lo
  {
    if lo == hi then false else s[lo] == '.' || DotBetween(s, lo + 1, hi)
  }

  /**
   * The pattern checked directly: every character other than a single `@`
   * is admitted by `[^\s@]`, the `@` is not first, and a `.` sits at least
   * two characters after the `@` and at least two before the end.
   */
  function MatchesEmail(s: string): (ok: bool) {
    var at := FirstAt(s);
    && 1 <= at < |s|
    && AllPlain(s[..at]) && AllPlain(s[at + 1..])
    && at + 2 <= |s| - 2 && DotBetween(s, at + 2, |s| - 1)
  }

  /** The direct check accepts exactly what the regular expression does. */
  lemma MatchesEmailIsPattern(s: string)
    ensures MatchesEmail(s) <==> EmailPattern(s)
  {
    if MatchesEmail(s) {
      MatchIsPattern(s);
    }
    if EmailPattern(s) {
      PatternMatches(s);
    }
  }

  lemma MatchIsPattern(s: string)
    requires MatchesEmail(s)
    ensures EmailPattern(s)
  {
    var at := FirstAt(s);
    var dot :| at + 2 <= dot < |s| - 1 && s[dot] == '.';
    var domain := s[at + 1..];
    assert AllPlain(domain);
    var host, tld := s[at + 1..dot], s[dot + 1..];
    forall k | 0 <= k < |host| ensures Plain(host[k]) {
      assert host[k] == domain[k];
    }
    forall k | 0 <= k < |tld| ensures Plain(tld[k]) {
      assert tld[k] == domain[dot - at + k];
    }
  }

  lemma PatternMatches(s: string)
    requires EmailPattern(s)
    ensures MatchesEmail(s)
  {
    var at: nat, dot: nat :| 1 <= at && at + 2 <= dot && dot + 2 <= |s|
      && s[at] == '@' && s[dot] == '.'
      && AllPlain(s[..at]) && AllPlain(s[at + 1..dot]) && AllPlain(s[dot + 1..]);
    FirstAtIs(s, at);
    DomainPlain(s, at, dot);
    assert s[dot] == '.' && at + 2 <= dot < |s| - 1;
  }

  /** An `@` with only admitted characters before it is the first `@`. */
  lemma FirstAtIs(s: string, at: nat)
    requires at < |s| && s[at] == '@' && AllPlain(s[..at])
    ensures FirstAt(s) == at
  {
    assert forall k | 0 <= k < at :: s[k] == s[..at][k];
  }

  /** A host and a top-level part of admitted characters, joined by a `.`, make an admitted domain. */
  lemma DomainPlain(s: string, at: nat, dot: nat)
    requires at < dot < |s| && s[dot] == '.'
    requires AllPlain(s[at + 1..dot]) && AllPlain(s[dot + 1..])
    ensures AllPlain(s[at + 1..])
  {
    var domain, host, tld := s[at + 1..], s[at + 1..dot], s[dot + 1..];
    forall k | 0 <= k < |domain| ensures Plain(domain[k]) {
      if at + 1 + k < dot {
        assert domain[k] == host[k];
      } else if at + 1 + k > dot {
        assert domain[k] == tld[at + k - dot];
      }
    }
  }

  /** `isValidEmail`: the pattern, and at most MaxEmail characters. */
  function IsValidEmail(email: string): (ok: bool)
    ensures ok <==> EmailPattern(email) && |email| <= MaxEmail
  {
    MatchesEmailIsPattern(email);
    MatchesEmail(email) && |email| <= MaxEmail
  }

  // ---------------------------------------------------------------------------
  // Passwords
  // ---------------------------------------------------------------------------

  const PasswordTooShort: string := "Lösenordet måste vara minst 6 tecken"
  const PasswordTooLong: string := "Lösenordet är för långt"

  const MinPassword: nat := 6

  datatype PasswordCheck = PasswordCheck(valid: bool, message: Option<string>)

  /** `isValidPassword`: too short is reported before too long. */
  function IsValidPassword(password: string): (r: PasswordCheck)
    ensures r.valid <==> MinPassword <= |password| <= MaxPassword
    ensures r.valid <==> r.message.None?
    ensures |password| < MinPassword ==> r.message == Some(PasswordTooShort)
    ensures |password| > MaxPassword ==> r.message == Some(PasswordTooLong)
  {
    if |password| < MinPassword then PasswordCheck(false, Some(PasswordTooShort))
    else if |password| > MaxPassword then PasswordCheck(false, Some(PasswordTooLong))
    else PasswordCheck(true, None)
  }

  // ---------------------------------------------------------------------------
  // The cases the unit tests pin down
  // ---------------------------------------------------------------------------

  lemma SanitizeTrimsExample()
    ensures SanitizeText("  hello  ", 100) == "hello"
  {
    PaddedHelloLeading();
    PaddedHelloTrailing();
    assert "  hello  "[2..] == "hello  ";
    assert "hello  "[..5] == "hello";
  }

  lemma PaddedHelloLeading()
    ensures LeadingSpaces("  hello  ") == 2
  {
    var s := "  hello  ";
    assert IsSpace(s[0]) && IsSpace(s[1]) && !IsSpace(s[2]);
  }

  lemma PaddedHelloTrailing()
    ensures TrailingSpaces("hello  ") == 2
  {
    var s := "hello  ";
    assert IsSpace(s[6]) && IsSpace(s[5]) && !IsSpace(s[4]);
  }

  lemma SanitizeTruncatesExample()
    ensures SanitizeText("abcdef", 3) == "abc"
  {
    var s := "abcdef";
    assert !IsSpace(s[0]) && !IsSpace(s[5]);
    assert s[0..][..6] == s;
  }

  lemma SanitizeBlankExamples()
    ensures SanitizeText("", 100) == "" && SanitizeText("   ", 100) == ""
  {
    SanitizeBlank("", 100);
    SanitizeBlank("   ", 100);
  }

  lemma AmountExamples()
    ensures IsValidAmount(Finite(100.0)) && IsValidAmount(Finite(0.5))
    ensures !IsValidAmount(Finite(0.0)) && !IsValidAmount(Finite(-10.0))
    ensures !IsValidAmount(NaN) && !IsValidAmount(Finite(9999999.0))
  {
  }

  lemma EmailAcceptedExample()
    ensures IsValidEmail("test@example.com")
  {
    var s := "test@example.com";
    ExampleAt();
    ExampleParts();
    assert s[12] == '.';
    assert DotBetween(s, 12, 15);
    assert MatchesEmail(s);
  }

  lemma ExampleAt()
    ensures FirstAt("test@example.com") == 4
  {
    var s := "test@example.com";
    assert FirstAt(s[4..]) == 0;
    assert FirstAt(s[3..]) == 1;
    assert FirstAt(s[2..]) == 2;
    assert FirstAt(s[1..]) == 3;
  }

  lemma ExampleParts()
    ensures AllPlain("test@example.com"[..4]) && AllPlain("test@example.com"[5..])
  {
    var s := "test@example.com";
    LettersArePlain(s[..4]);
    assert s[5..] == "example.com";
    LettersArePlain("example.com");
  }

  lemma LettersArePlain(s: string)
    requires forall k | 0 <= k < |s| :: 'a' <= s[k] <= 'z' || s[k] == '.'
    ensures AllPlain(s)
  {
  }

  lemma EmailRejectedExamples()
    ensures !IsValidEmail("notanemail")
    ensures !IsValidEmail("@missing.com")
    ensures !IsValidEmail("test@")
  {
    assert FirstAt("@missing.com") == 0;
    assert !MatchesEmail("test@") by {
      assert |"test@"| == 5;
    }
    assert !MatchesEmail("notanemail") by {
      assert forall k | 0 <= k < 10 :: "notanemail"[k] != '@';
    }
  }

  lemma LongEmailRejected(local: string)
    requires |local| == 250
    ensures !IsValidEmail(local + "@b.com")
  {
  }

  lemma PasswordExamples()
    ensures IsValidPassword("abc123").valid
    ensures !IsValidPassword("abc").valid && IsValidPassword("abc").message.Some?
  {
  }
}

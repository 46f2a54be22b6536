/**
 * The security manager: input recognisers and sanitisers, the password
 * checker, the form-rule engine, the upload check and the per-identifier
 * login-failure counter with its account lock.
 */
module Security {
  import opened Options
  import opened Text
  import opened Collections
  import opened Storage

  // ---------------------------------------------------------------- email

  predicate IsEmailLocalChar(c: char) {
    IsAlnum(c) || c == '.' || c == '_' || c == '%' || c == '+' || c == '-'
  }

  predicate IsEmailDomainChar(c: char) {
    IsAlnum(c) || c == '.' || c == '-'
  }

  /** The three parts of /^[a-zA-Z0-9._%+-]+@[a-zA-Z0-9.-]+\.[a-zA-Z]{2,}$/ */
  predicate EmailParts(local: string, domain: string, tld: string) {
    |local| >= 1 && AllChars(local, IsEmailLocalChar) &&
    |domain| >= 1 && AllChars(domain, IsEmailDomainChar) &&
    |tld| >= 2 && AllChars(tld, IsLetter)
  }

  /** Reference reading of the pattern: the address is local + "@" + domain + "." + tld for some split */
  ghost predicate MatchesEmailPattern(s: string) {
    exists i, j :: 0 <= i < j < |s| && s[i] == '@' && s[j] == '.' && EmailParts(s[..i], s[i + 1..j], s[j + 1..])
  }

  /** validateEmail; an accepted address has at least one character in each part */
  function ValidateEmail(email: string): (r: bool)
    ensures r ==> |email| >= 6
  {
    SplitAtFirstAtLastDot(email)
  }

  /** The only possible split is at the first '@' and the last '.' after it */
  predicate SplitAtFirstAtLastDot(email: string) {
    var at := IndexOf(email, '@');
    if at < 0 then false
    else
      var rest := email[at + 1..];
      var dot := LastIndexOf(rest, '.');
      dot >= 0 && EmailParts(email[..at], rest[..dot], rest[dot + 1..])
  }

  /** Every address validateEmail accepts has the form L@D.T */
  lemma ValidEmailMatches(s: string)
    requires ValidateEmail(s)
    ensures MatchesEmailPattern(s)
  {
    var at := IndexOf(s, '@');
    var rest := s[at + 1..];
    var dot := LastIndexOf(rest, '.');
    var j := at + 1 + dot;
    assert s[at + 1..j] == rest[..dot];
    assert s[j + 1..] == rest[dot + 1..];
    assert s[j] == '.';
    assert EmailParts(s[..at], s[at + 1..j], s[j + 1..]);
  }

  lemma LocalPartHasNoAt(local: string)
    requires AllChars(local, IsEmailLocalChar)
    ensures '@' !in local
  {
    forall k | 0 <= k < |local| ensures local[k] != '@' {
      assert IsEmailLocalChar(local[k]);
    }
  }

  lemma TopLevelHasNoDot(tld: string)
    requires AllChars(tld, IsLetter)
    ensures '.' !in tld
  {
    forall k | 0 <= k < |tld| ensures tld[k] != '.' {
      assert IsLetter(tld[k]);
    }
  }

  /** Every address of the form L@D.T is accepted, whichever split witnesses it */
  lemma MatchingEmailValid(s: string, i: int, j: int)
    requires 0 <= i < j < |s| && s[i] == '@' && s[j] == '.'
    requires EmailParts(s[..i], s[i + 1..j], s[j + 1..])
    ensures ValidateEmail(s)
  {
    LocalPartHasNoAt(s[..i]);
    assert s == s[..i] + ['@'] + s[i + 1..];
    IndexOfFirst(s[..i], '@', s[i + 1..]);
    var rest := s[i + 1..];
    var tld := s[j + 1..];
    TopLevelHasNoDot(tld);
    assert s[i + 1..] == s[i + 1..j] + s[j..];
    assert s[j..] == ['.'] + tld;
    assert rest == s[i + 1..j] + ['.'] + tld;
    LastIndexOfLast(s[i + 1..j], '.', tld);
    assert rest[..j - i - 1] == s[i + 1..j];
    assert rest[j - i..] == tld;
  }

  /** validateEmail accepts exactly the addresses of the form L@D.T */
  lemma ValidateEmailIff(s: string)
    ensures ValidateEmail(s) <==> MatchesEmailPattern(s)
  {
    if ValidateEmail(s) {
      ValidEmailMatches(s);
    }
    if MatchesEmailPattern(s) {
      var i, j :| 0 <= i < j < |s| && s[i] == '@' && s[j] == '.' && EmailParts(s[..i], s[i + 1..j], s[j + 1..]);
      MatchingEmailValid(s, i, j);
    }
  }

  // ---------------------------------------------------------------- phone

  /** The characters /[\s\-\(\)]/g removes before matching */
  predicate IsPhoneSeparator(c: char) {
    IsWhitespace(c) || c == '-' || c == '(' || c == ')'
  }

  /** /^[\+]?[1-9][\d]{0,15}$/ */
  predicate PhonePattern(p: string) {
    var d := if p != [] && p[0] == '+' then p[1..] else p;
    1 <= |d| <= 16 && '1' <= d[0] <= '9' && AllChars(d[1..], IsDigit)
  }

  /** validatePhone: the pattern, once every separator is removed; at most 17 characters remain */
  function ValidatePhone(phone: string): (r: bool)
    ensures r ==> 1 <= |Without(phone, IsPhoneSeparator)| <= 17 && phone != []
  {
    PhonePattern(Without(phone, IsPhoneSeparator))
  }

  /** Spaces, dashes and parentheses anywhere in a number do not change the verdict */
  lemma PhoneSeparatorIgnored(a: string, c: char, b: string)
    requires IsPhoneSeparator(c)
    ensures ValidatePhone(a + [c] + b) == ValidatePhone(a + b)
  {
    WithoutConcat(a + [c], b, IsPhoneSeparator);
    WithoutConcat(a, [c], IsPhoneSeparator);
    WithoutConcat(a, b, IsPhoneSeparator);
    assert Without([c], IsPhoneSeparator) == Without([c][1..], IsPhoneSeparator);
    assert [c][1..] == [];
    assert Without(a + [c], IsPhoneSeparator) == Without(a, IsPhoneSeparator);
  }

  /** An accepted number is at most an optional '+' and 16 digits once separators are gone */
  lemma PhoneDigits(phone: string)
    requires ValidatePhone(phone)
    ensures var p := Without(phone, IsPhoneSeparator);
      1 <= |p| <= 17 && forall k :: 0 <= k < |p| ==> IsDigit(p[k]) || (k == 0 && p[k] == '+')
  {
    var p := Without(phone, IsPhoneSeparator);
    var d := if p != [] && p[0] == '+' then p[1..] else p;
    forall k | 0 <= k < |p| ensures IsDigit(p[k]) || (k == 0 && p[k] == '+') {
      if p[0] == '+' {
        if k > 0 {
          assert p[k] == d[k - 1];
          if k > 1 {
            assert d[k - 1] == d[1..][k - 2];
          }
        }
      } else {
        if k > 0 {
          assert p[k] == d[1..][k - 1];
        }
      }
    }
  }

  // ---------------------------------------------------------------- sanitising

  /** The argument of sanitizeText / sanitizeHTML: a string or some other JavaScript value */
  datatype Input = Str(s: string) | NotString

  predicate IsAngleBracket(c: char) { c == '<' || c == '>' }

  const JavascriptProtocol: string := "javascript:"

  /** s begins with the lower-case pattern p, compared ignoring ASCII case (the regex flag i) */
  predicate StartsWithIgnoringCase(s: string, p: string) {
    |p| <= |s| && forall k :: 0 <= k < |p| ==> LowerChar(s[k]) == p[k]
  }

  /** s.replace(/javascript:/gi, ''): one left-to-right pass, resuming after each removal */
  function RemoveJavascriptProtocol(s: string): (r: string)
    ensures |r| <= |s|
    ensures forall c :: c in r ==> c in s
    decreases |s|
  {
    if s == [] then []
    else if StartsWithIgnoringCase(s, JavascriptProtocol) then RemoveJavascriptProtocol(s[|JavascriptProtocol|..])
    else [s[0]] + RemoveJavascriptProtocol(s[1..])
  }

  /** No case-insensitive "javascript:" starts anywhere in s */
  predicate FreeOfProtocol(s: string) {
    forall i :: 0 <= i < |s| ==> !StartsWithIgnoringCase(s[i..], JavascriptProtocol)
  }

  /** An occurrence anywhere makes the pass remove something */
  lemma {:induction false} ProtocolOccurrenceRemoved(s: string, i: nat)
    requires i < |s| && StartsWithIgnoringCase(s[i..], JavascriptProtocol)
    ensures |RemoveJavascriptProtocol(s)| < |s|
    decreases |s|
  {
    assert s[0..] == s;
    if !StartsWithIgnoringCase(s, JavascriptProtocol) {
      assert s[1..][i - 1..] == s[i..];
      ProtocolOccurrenceRemoved(s[1..], i - 1);
    }
  }

  /** Text without the protocol passes through unchanged */
  lemma {:induction false} ProtocolFreeKept(s: string)
    requires FreeOfProtocol(s)
    ensures RemoveJavascriptProtocol(s) == s
    decreases |s|
  {
    if s != [] {
      assert s[0..] == s;
      forall i | 0 <= i < |s[1..]| ensures !StartsWithIgnoringCase(s[1..][i..], JavascriptProtocol) {
        assert s[1..][i..] == s[i + 1..];
      }
      ProtocolFreeKept(s[1..]);
    }
  }

  /** The pass changes s exactly when "javascript:" occurs in it, in any case */
  lemma RemoveJavascriptProtocolChangesIff(s: string)
    ensures RemoveJavascriptProtocol(s) == s <==> FreeOfProtocol(s)
  {
    if FreeOfProtocol(s) {
      ProtocolFreeKept(s);
    } else {
      var i :| 0 <= i < |s| && StartsWithIgnoringCase(s[i..], JavascriptProtocol);
      ProtocolOccurrenceRemoved(s, i);
    }
  }

  /** Length of the run of \w characters at the start of s (what a greedy \w+ takes) */
  function WordRun(s: string): (n: nat)
    ensures n <= |s|
    ensures forall k :: 0 <= k < n ==> IsWordChar(s[k])
    ensures n == |s| || !IsWordChar(s[n])
  {
    if s != [] && IsWordChar(s[0]) then 1 + WordRun(s[1..]) else 0
  }

  /** /on\w+=/i matches at the start of s */
  predicate HandlerAt(s: string) {
    |s| >= 2 && LowerChar(s[0]) == 'o' && LowerChar(s[1]) == 'n' &&
    WordRun(s[2..]) >= 1 && 2 + WordRun(s[2..]) < |s| && s[2 + WordRun(s[2..])] == '='
  }

  /** /on\w+=/i matches s with exactly m word characters between "on" and '=' */
  predicate HandlerOfLength(s: string, m: nat) {
    1 <= m && 2 + m < |s| && AllChars(s[2..2 + m], IsWordChar) && s[2 + m] == '='
  }

  /** The regex reading of HandlerAt: "on", then one or more word characters, then '=' */
  lemma HandlerAtIff(s: string)
    ensures HandlerAt(s) <==>
      (|s| >= 2 && LowerChar(s[0]) == 'o' && LowerChar(s[1]) == 'n' && exists m: nat :: HandlerOfLength(s, m))
  {
    if |s| >= 2 && LowerChar(s[0]) == 'o' && LowerChar(s[1]) == 'n' {
      var n := WordRun(s[2..]);
      if HandlerAt(s) {
        var w := s[2..2 + n];
        forall k | 0 <= k < n ensures IsWordChar(w[k]) {
          assert w[k] == s[2..][k];
        }
        assert HandlerOfLength(s, n);
      }
      if exists m: nat :: HandlerOfLength(s, m) {
        var m: nat :| HandlerOfLength(s, m);
        var w := s[2..2 + m];
        if n < m {
          assert s[2..][n] == w[n];
        } else if n > m {
          assert s[2..][m] == '=';
        }
      }
    }
  }

  /** s.replace(/on\w+=/gi, ''): one left-to-right pass */
  function RemoveEventHandlers(s: string): (r: string)
    ensures |r| <= |s|
    ensures forall c :: c in r ==> c in s
    decreases |s|
  {
    if s == [] then []
    else if HandlerAt(s) then RemoveEventHandlers(s[3 + WordRun(s[2..])..])
    else [s[0]] + RemoveEventHandlers(s[1..])
  }

  /** No /on\w+=/i match starts anywhere in s */
  predicate FreeOfHandlers(s: string) {
    forall i :: 0 <= i < |s| ==> !HandlerAt(s[i..])
  }

  /** A handler match anywhere makes the pass remove something */
  lemma {:induction false} HandlerOccurrenceRemoved(s: string, i: nat)
    requires i < |s| && HandlerAt(s[i..])
    ensures |RemoveEventHandlers(s)| < |s|
    decreases |s|
  {
    assert s[0..] == s;
    if !HandlerAt(s) {
      assert s[1..][i - 1..] == s[i..];
      HandlerOccurrenceRemoved(s[1..], i - 1);
    }
  }

  /** Text without handler attributes passes through unchanged */
  lemma {:induction false} HandlerFreeKept(s: string)
    requires FreeOfHandlers(s)
    ensures RemoveEventHandlers(s) == s
    decreases |s|
  {
    if s != [] {
      assert s[0..] == s;
      forall i | 0 <= i < |s[1..]| ensures !HandlerAt(s[1..][i..]) {
        assert s[1..][i..] == s[i + 1..];
      }
      HandlerFreeKept(s[1..]);
    }
  }

  /** The pass changes s exactly when an /on\w+=/i match occurs in it */
  lemma RemoveEventHandlersChangesIff(s: string)
    ensures RemoveEventHandlers(s) == s <==> FreeOfHandlers(s)
  {
    if FreeOfHandlers(s) {
      HandlerFreeKept(s);
    } else {
      var i :| 0 <= i < |s| && HandlerAt(s[i..]);
      HandlerOccurrenceRemoved(s, i);
    }
  }

  /** sanitizeText */
  function SanitizeText(input: Input): (r: string)
    ensures input.NotString? ==> r == []
    ensures '<' !in r && '>' !in r
    ensures NoBlankEnds(r)
    ensures input.Str? ==> forall c :: c in r ==> c in input.s
  {
    match input
    case NotString => []
    case Str(s) =>
      var t := RemoveEventHandlers(RemoveJavascriptProtocol(Without(s, IsAngleBracket)));
      TrimChars(t);
      TrimEnds(t);
      Trim(t)
  }

  /** Ordinary text (no angle brackets, neither pattern, no blank ends) comes through sanitizeText unchanged */
  lemma CleanTextKept(s: string)
    requires forall c :: c in s ==> !IsAngleBracket(c)
    requires FreeOfProtocol(s) && FreeOfHandlers(s) && NoBlankEnds(s)
    ensures SanitizeText(Str(s)) == s
  {
    WithoutNothing(s, IsAngleBracket);
    ProtocolFreeKept(s);
    HandlerFreeKept(s);
    TrimOfTrimmed(s);
  }

  /** sanitizeHTML: the markup of a text node holding s (innerHTML after textContent) */
  function EscapeHtml(s: string): (r: string)
    ensures '<' !in r && '>' !in r
  {
    if s == [] then []
    else EscapeChar(s[0]) + EscapeHtml(s[1..])
  }

  function EscapeChar(c: char): (r: string)
    ensures '<' !in r && '>' !in r
    ensures |r| >= 1 && (r[0] == '&' <==> c == '&' || IsAngleBracket(c) || c as int == 0xA0)
  {
    if c == '&' then "&amp;"
    else if c == '<' then "&lt;"
    else if c == '>' then "&gt;"
    else if c as int == 0xA0 then "&nbsp;"
    else [c]
  }

  function SanitizeHtml(input: Input): (r: string)
    ensures input.NotString? ==> r == []
    ensures '<' !in r && '>' !in r
  {
    match input
    case NotString => []
    case Str(s) => EscapeHtml(s)
  }

  /** Reading the markup back as text: the four entity references the escaping produces */
  function UnescapeHtml(s: string): string
    decreases |s|
  {
    if s == [] then []
    else if |s| >= 5 && s[..5] == "&amp;" then "&" + UnescapeHtml(s[5..])
    else if |s| >= 4 && s[..4] == "&lt;" then "<" + UnescapeHtml(s[4..])
    else if |s| >= 4 && s[..4] == "&gt;" then ">" + UnescapeHtml(s[4..])
    else if |s| >= 6 && s[..6] == "&nbsp;" then [0xA0 as char] + UnescapeHtml(s[6..])
    else [s[0]] + UnescapeHtml(s[1..])
  }

  /** A string whose second character differs from that of p does not start with p */
  lemma NotPrefix(e: string, p: string)
    requires |p| >= 2 && |e| >= 2 && e[1] != p[1]
    ensures !(|e| >= |p| && e[..|p|] == p)
  {
    if |e| >= |p| {
      assert e[..|p|][1] == e[1];
    }
  }

  lemma UnescapeAmp(rest: string)
    ensures UnescapeHtml("&amp;" + rest) == "&" + UnescapeHtml(rest)
  {
    var e := "&amp;" + rest;
    assert e[..5] == "&amp;" && e[5..] == rest;
  }

  lemma UnescapeLt(rest: string)
    ensures UnescapeHtml("&lt;" + rest) == "<" + UnescapeHtml(rest)
  {
    var e := "&lt;" + rest;
    NotPrefix(e, "&amp;");
    assert e[..4] == "&lt;" && e[4..] == rest;
  }

  lemma UnescapeGt(rest: string)
    ensures UnescapeHtml("&gt;" + rest) == ">" + UnescapeHtml(rest)
  {
    var e := "&gt;" + rest;
    NotPrefix(e, "&amp;");
    NotPrefix(e, "&lt;");
    assert e[..4] == "&gt;" && e[4..] == rest;
  }

  lemma UnescapeNbsp(rest: string)
    ensures UnescapeHtml("&nbsp;" + rest) == [0xA0 as char] + UnescapeHtml(rest)
  {
    var e := "&nbsp;" + rest;
    NotPrefix(e, "&amp;");
    NotPrefix(e, "&lt;");
    NotPrefix(e, "&gt;");
    assert e[..6] == "&nbsp;" && e[6..] == rest;
  }

  lemma UnescapePlain(c: char, rest: string)
    requires c != '&'
    ensures UnescapeHtml([c] + rest) == [c] + UnescapeHtml(rest)
  {
    var e := [c] + rest;
    assert e[0] == c;
    if |e| >= 4 {
      assert e[..4][0] == c;
    }
    if |e| >= 5 {
      assert e[..5][0] == c;
    }
    if |e| >= 6 {
      assert e[..6][0] == c;
    }
    assert e[1..] == rest;
  }

  lemma UnescapeCons(c: char, rest: string)
    ensures UnescapeHtml(EscapeChar(c) + rest) == [c] + UnescapeHtml(rest)
  {
    if c == '&' {
      UnescapeAmp(rest);
    } else if c == '<' {
      UnescapeLt(rest);
    } else if c == '>' {
      UnescapeGt(rest);
    } else if c as int == 0xA0 {
      UnescapeNbsp(rest);
      assert [c] == [0xA0 as char];
    } else {
      UnescapePlain(c, rest);
    }
  }

  /** The escaped markup reads back as the original text */
  lemma {:induction false} EscapeHtmlRoundTrip(s: string)
    ensures UnescapeHtml(EscapeHtml(s)) == s
  {
    if s != [] {
      EscapeHtmlRoundTrip(s[1..]);
      UnescapeCons(s[0], EscapeHtml(s[1..]));
      assert s == [s[0]] + s[1..];
    }
  }

  // ---------------------------------------------------------------- passwords

  datatype PasswordIssue = TooShort(minLength: nat) | MissingLowercase | MissingUppercase | MissingDigit | MissingSpecial

  datatype Strength = Weak | Medium | Strong

  datatype PasswordReport = PasswordReport(isValid: bool, errors: seq<PasswordIssue>, strength: Strength)

  /** /[^a-zA-Z0-9]/ */
  predicate IsSpecial(c: char) { !IsAlnum(c) }

  /** `passwordMinLength || 6` */
  function MinPasswordLength(configured: nat): (n: nat)
    ensures configured == 0 ==> n == 6
    ensures configured != 0 ==> n == configured
  {
    if configured != 0 then configured else 6
  }

  /** One point each for length >= 8 and for each of the four character classes */
  function PasswordScore(p: string): (n: nat)
    ensures n <= 5
    ensures n >= 4 <== AnyChar(p, IsLower) && AnyChar(p, IsUpper) && AnyChar(p, IsDigit) && AnyChar(p, IsSpecial)
    ensures n == 5 <==> |p| >= 8 && AnyChar(p, IsLower) && AnyChar(p, IsUpper) && AnyChar(p, IsDigit) && AnyChar(p, IsSpecial)
    ensures |p| >= 8 && AnyChar(p, IsLower) && AnyChar(p, IsUpper) && AnyChar(p, IsDigit) ==> n >= 4
    ensures |p| < 8 ==> n <= 4
  {
    (if |p| >= 8 then 1 else 0) + (if AnyChar(p, IsLower) then 1 else 0) + (if AnyChar(p, IsUpper) then 1 else 0) +
    (if AnyChar(p, IsDigit) then 1 else 0) + (if AnyChar(p, IsSpecial) then 1 else 0)
  }

  /** The strength label of validatePassword: 4 or more is strong, 3 is medium, less is weak */
  function StrengthOf(score: nat): (r: Strength)
    ensures r == Strong <==> score >= 4
    ensures r == Medium <==> score == 3
    ensures r == Weak <==> score <= 2
  {
    if score >= 4 then Strong else if score >= 3 then Medium else Weak
  }

  /** validatePassword, for the configured minimum length */
  function ValidatePassword(password: string, configuredMinLength: nat): (r: PasswordReport)
    ensures r.isValid <==>
      |password| >= MinPasswordLength(configuredMinLength) && AnyChar(password, IsLower) &&
      AnyChar(password, IsUpper) && AnyChar(password, IsDigit) && AnyChar(password, IsSpecial)
    ensures r.isValid <==> r.errors == []
    ensures TooShort(MinPasswordLength(configuredMinLength)) in r.errors <==> |password| < MinPasswordLength(configuredMinLength)
    ensures MissingLowercase in r.errors <==> !AnyChar(password, IsLower)
    ensures MissingUppercase in r.errors <==> !AnyChar(password, IsUpper)
    ensures MissingDigit in r.errors <==> !AnyChar(password, IsDigit)
    ensures MissingSpecial in r.errors <==> !AnyChar(password, IsSpecial)
    ensures |r.errors| <= 5
    ensures r.strength == StrengthOf(PasswordScore(password))
    ensures r.isValid ==> r.strength == Strong
  {
    var minLength := MinPasswordLength(configuredMinLength);
    var errors :=
      (if |password| < minLength then [TooShort(minLength)] else []) +
      (if !AnyChar(password, IsLower) then [MissingLowercase] else []) +
      (if !AnyChar(password, IsUpper) then [MissingUppercase] else []) +
      (if !AnyChar(password, IsDigit) then [MissingDigit] else []) +
      (if !AnyChar(password, IsSpecial) then [MissingSpecial] else []);
    PasswordReport(errors == [], errors, StrengthOf(PasswordScore(password)))
  }

  // ---------------------------------------------------------------- uploads

  datatype FileInfo = FileInfo(name: string, size: nat, mimeType: string)

  /** The options object; a size of 0 and a missing list fall back to the defaults */
  datatype FileOptions = FileOptions(maxSize: nat, allowedTypes: Option<seq<string>>, allowedExtensions: Option<seq<string>>)

  datatype FileIssue = TooLarge(maxSize: nat) | TypeNotAllowed | ExtensionNotAllowed

  datatype FileReport = FileReport(isValid: bool, errors: seq<FileIssue>)

  const DefaultMaxFileSize: nat := 5 * 1024 * 1024
  const DefaultAllowedTypes: seq<string> := ["image/jpeg", "image/png", "image/gif"]
  const DefaultAllowedExtensions: seq<string> := [".jpg", ".jpeg", ".png", ".gif"]

  /** '.' + name.split('.').pop().toLowerCase() */
  function FileExtension(name: string): (ext: string)
    ensures |ext| >= 1 && ext[0] == '.'
    ensures '.' !in ext[1..]
  {
    var segment := LastSegment(name, '.');
    var lowered := ToLower(segment);
    assert '.' !in lowered by {
      forall k | 0 <= k < |lowered| ensures lowered[k] != '.' {
        assert lowered[k] == LowerChar(segment[k]);
      }
    }
    assert (['.'] + lowered)[1..] == lowered;
    ['.'] + lowered
  }

  /** Only the part after the last dot decides the extension */
  lemma FileExtensionOf(base: string, ext: string)
    requires '.' !in ext
    ensures FileExtension(base + "." + ext) == "." + ToLower(ext)
  {
    LastSegmentAfterSeparator(base, '.', ext);
  }

  /** A name without a dot is its own extension, so a file called "gif" has extension ".gif" */
  lemma FileExtensionWithoutDot(name: string)
    requires '.' !in name
    ensures FileExtension(name) == "." + ToLower(name)
  {
    LastSegmentNoSeparator(name, '.');
  }

  /** `options.maxSize || 5MB` */
  function MaxSizeOf(options: FileOptions): nat {
    if options.maxSize != 0 then options.maxSize else DefaultMaxFileSize
  }

  /** `options.allowedTypes || [...]` */
  function AllowedTypesOf(options: FileOptions): seq<string> {
    if options.allowedTypes.Some? then options.allowedTypes.value else DefaultAllowedTypes
  }

  /** `options.allowedExtensions || [...]` */
  function AllowedExtensionsOf(options: FileOptions): seq<string> {
    if options.allowedExtensions.Some? then options.allowedExtensions.value else DefaultAllowedExtensions
  }

  function ValidateFile(file: FileInfo, options: FileOptions): (r: FileReport)
    ensures r.isValid <==>
      file.size <= MaxSizeOf(options) && file.mimeType in AllowedTypesOf(options) &&
      FileExtension(file.name) in AllowedExtensionsOf(options)
    ensures r.isValid <==> r.errors == []
    ensures TooLarge(MaxSizeOf(options)) in r.errors <==> file.size > MaxSizeOf(options)
    ensures TypeNotAllowed in r.errors <==> file.mimeType !in AllowedTypesOf(options)
    ensures ExtensionNotAllowed in r.errors <==> FileExtension(file.name) !in AllowedExtensionsOf(options)
    ensures |r.errors| <= 3
  {
    var maxSize := MaxSizeOf(options);
    var types := AllowedTypesOf(options);
    var extensions := AllowedExtensionsOf(options);
    var errors :=
      (if file.size > maxSize then [TooLarge(maxSize)] else []) +
      (if file.mimeType !in types then [TypeNotAllowed] else []) +
      (if FileExtension(file.name) !in extensions then [ExtensionNotAllowed] else []);
    FileReport(errors == [], errors)
  }

  // ---------------------------------------------------------------- form rules

  datatype FieldType = EmailField | PhoneField | PasswordField | TextField | HtmlField | UntypedField

  /** A rule object; a minLength or maxLength of 0 stands for an absent (falsy) limit */
  datatype Rule = Rule(kind: FieldType, required: bool, minLength: nat, maxLength: nat)

  datatype FieldError =
    | InvalidEmail
    | InvalidPhone
    | WeakPassword(issues: seq<PasswordIssue>)
    | Required
    | BelowMinimum(minLength: nat)
    | AboveMaximum(maxLength: nat)

  datatype FormReport = FormReport(isValid: bool, errors: map<string, FieldError>, sanitizedData: map<string, string>)

  /** The value stored for a field: sanitised for email, phone and text, escaped for html, raw otherwise */
  function SanitizeField(value: string, rule: Rule): string {
    match rule.kind
    case EmailField => SanitizeText(Str(value))
    case PhoneField => SanitizeText(Str(value))
    case TextField => SanitizeText(Str(value))
    case HtmlField => SanitizeHtml(Str(value))
    case PasswordField => value
    case UntypedField => value
  }

  /** The verdict of the type-specific check */
  function TypeCheck(value: string, rule: Rule, configuredMinLength: nat): Option<FieldError> {
    match rule.kind
    case EmailField => if ValidateEmail(SanitizeText(Str(value))) then None else Some(InvalidEmail)
    case PhoneField => if ValidatePhone(SanitizeText(Str(value))) then None else Some(InvalidPhone)
    case PasswordField =>
      var report := ValidatePassword(value, configuredMinLength);
      if report.isValid then None else Some(WeakPassword(report.errors))
    case TextField => None
    case HtmlField => None
    case UntypedField => None
  }

  /** The error a field ends with: each later failing check overwrites the message of an earlier one */
  function CheckField(value: string, rule: Rule, configuredMinLength: nat): (e: Option<FieldError>)
    ensures e.Some? && e.value.BelowMinimum? ==> SanitizeField(value, rule) != [] && |SanitizeField(value, rule)| < e.value.minLength
    ensures e.Some? && e.value.AboveMaximum? ==> SanitizeField(value, rule) != [] && |SanitizeField(value, rule)| > e.value.maxLength
  {
    var s := SanitizeField(value, rule);
    var afterType := TypeCheck(value, rule, configuredMinLength);
    var afterRequired := if rule.required && Trim(s) == [] then Some(Required) else afterType;
    var afterMin := if s != [] && rule.minLength != 0 && |s| < rule.minLength then Some(BelowMinimum(rule.minLength)) else afterRequired;
    if s != [] && rule.maxLength != 0 && |s| > rule.maxLength then Some(AboveMaximum(rule.maxLength)) else afterMin
  }

  /** A field passes exactly when its type check, the required check and both length limits pass */
  lemma CheckFieldPassesIff(value: string, rule: Rule, configuredMinLength: nat)
    ensures CheckField(value, rule, configuredMinLength).None? <==>
      TypeCheck(value, rule, configuredMinLength).None? &&
      !(rule.required && Trim(SanitizeField(value, rule)) == []) &&
      !(SanitizeField(value, rule) != [] && rule.minLength != 0 && |SanitizeField(value, rule)| < rule.minLength) &&
      !(SanitizeField(value, rule) != [] && rule.maxLength != 0 && |SanitizeField(value, rule)| > rule.maxLength)
  {
  }

  /** The length limits are not applied to a value that sanitises to the empty string */
  lemma LengthLimitsSkipEmpty(value: string, rule: Rule, configuredMinLength: nat)
    requires SanitizeField(value, rule) == []
    ensures CheckField(value, rule, configuredMinLength) ==
      (if rule.required then Some(Required) else TypeCheck(value, rule, configuredMinLength))
  {
  }

  /** What checking one field yields: the value stored for it and the error it ends with */
  datatype FieldOutcome = FieldOutcome(sanitized: string, error: Option<FieldError>)

  /** The per-field check of validateFormData */
  function FieldCheck(configuredMinLength: nat): (string, Rule) -> FieldOutcome {
    (value: string, rule: Rule) => FieldOutcome(SanitizeField(value, rule), CheckField(value, rule, configuredMinLength))
  }

  /** What one loop iteration adds to the result, for a given per-field check */
  function FoldEntry(acc: FormReport, field: string, value: string, rules: map<string, Rule>, check: (string, Rule) -> FieldOutcome): (r: FormReport)
    ensures r.isValid <==> acc.isValid && (field in rules ==> check(value, rules[field]).error.None?)
    ensures field in rules ==> r.sanitizedData == acc.sanitizedData[field := check(value, rules[field]).sanitized]
    ensures field in rules && check(value, rules[field]).error.Some? ==> r.errors == acc.errors[field := check(value, rules[field]).error.value]
    ensures field in rules && check(value, rules[field]).error.None? ==> r.errors == acc.errors
    ensures field !in rules ==> r == acc
  {
    if field !in rules then acc
    else
      var outcome := check(value, rules[field]);
      match outcome.error
      case None => acc.(sanitizedData := acc.sanitizedData[field := outcome.sanitized])
      case Some(e) => FormReport(false, acc.errors[field := e], acc.sanitizedData[field := outcome.sanitized])
  }

  const EmptyReport: FormReport := FormReport(true, map[], map[])

  /** The result after the given entries of Object.entries(formData), in order, for a given per-field check */
  function FoldEntries(entries: seq<(string, string)>, rules: map<string, Rule>, check: (string, Rule) -> FieldOutcome): FormReport
    decreases |entries|
  {
    if entries == [] then EmptyReport
    else
      var last := entries[|entries| - 1];
      FoldEntry(FoldEntries(entries[..|entries| - 1], rules, check), last.0, last.1, rules, check)
  }

  /** The result of validateFormData on the given entries */
  function CheckEntries(entries: seq<(string, string)>, rules: map<string, Rule>, configuredMinLength: nat): FormReport {
    FoldEntries(entries, rules, FieldCheck(configuredMinLength))
  }

  /** The type-specific part of the loop body */
  method SanitizeAndCheckType(value: string, rule: Rule, configuredMinLength: nat)
    returns (sanitizedValue: string, error: Option<FieldError>)
    ensures sanitizedValue == SanitizeField(value, rule)
    ensures error == TypeCheck(value, rule, configuredMinLength)
  {
    sanitizedValue := value;
    error := None;
    if rule.kind == EmailField {
      sanitizedValue := SanitizeText(Str(value));
      if !ValidateEmail(sanitizedValue) {
        error := Some(InvalidEmail);
      }
    } else if rule.kind == PhoneField {
      sanitizedValue := SanitizeText(Str(value));
      if !ValidatePhone(sanitizedValue) {
        error := Some(InvalidPhone);
      }
    } else if rule.kind == PasswordField {
      var passwordValidation := ValidatePassword(value, configuredMinLength);
      if !passwordValidation.isValid {
        error := Some(WeakPassword(passwordValidation.errors));
      }
    } else if rule.kind == TextField {
      sanitizedValue := SanitizeText(Str(value));
    } else if rule.kind == HtmlField {
      sanitizedValue := SanitizeHtml(Str(value));
    }
  }

  /** The loop body for one field that has a rule: later failing checks overwrite the error */
  method ValidateField(value: string, rule: Rule, configuredMinLength: nat)
    returns (sanitizedValue: string, error: Option<FieldError>)
    ensures sanitizedValue == SanitizeField(value, rule)
    ensures error == CheckField(value, rule, configuredMinLength)
  {
    sanitizedValue, error := SanitizeAndCheckType(value, rule, configuredMinLength);
    if rule.required && (sanitizedValue == [] || Trim(sanitizedValue) == []) {
      error := Some(Required);
    }
    if sanitizedValue != [] && rule.minLength != 0 && |sanitizedValue| < rule.minLength {
      error := Some(BelowMinimum(rule.minLength));
    }
    if sanitizedValue != [] && rule.maxLength != 0 && |sanitizedValue| > rule.maxLength {
      error := Some(AboveMaximum(rule.maxLength));
    }
  }

  /** validateFormData */
  method ValidateFormData(formData: seq<(string, string)>, rules: map<string, Rule>, configuredMinLength: nat)
    returns (result: FormReport)
    ensures result == CheckEntries(formData, rules, configuredMinLength)
  {
    result := EmptyReport;
    var i := 0;
    while i < |formData|
      invariant 0 <= i <= |formData|
      invariant result == CheckEntries(formData[..i], rules, configuredMinLength)
    {
      var (field, value) := formData[i];
      assert formData[..i + 1][..i] == formData[..i];
      if field in rules {
        var sanitizedValue, error := ValidateField(value, rules[field], configuredMinLength);
        if error.Some? {
          result := FormReport(false, result.errors[field := error.value], result.sanitizedData);
        }
        result := result.(sanitizedData := result.sanitizedData[field := sanitizedValue]);
      }
      i := i + 1;
    }
    assert formData[..|formData|] == formData;
  }

  /** For any per-field check, the result is valid exactly when no field has an error */
  lemma {:induction false} FoldValidIffNoErrors(entries: seq<(string, string)>, rules: map<string, Rule>, check: (string, Rule) -> FieldOutcome)
    ensures FoldEntries(entries, rules, check).isValid <==> FoldEntries(entries, rules, check).errors == map[]
    decreases |entries|
  {
    if entries != [] {
      FoldValidIffNoErrors(entries[..|entries| - 1], rules, check);
      var last := entries[|entries| - 1];
      if last.0 in rules && check(last.1, rules[last.0]).error.Some? {
        assert last.0 in FoldEntries(entries, rules, check).errors;
      }
    }
  }

  /** For any per-field check, the fields with a rule, and only those, are in sanitizedData; errors only name such fields */
  lemma {:induction false} FoldSanitizedKeys(entries: seq<(string, string)>, rules: map<string, Rule>, check: (string, Rule) -> FieldOutcome)
    ensures FoldEntries(entries, rules, check).sanitizedData.Keys ==
      set k | 0 <= k < |entries| && entries[k].0 in rules :: entries[k].0
    ensures FoldEntries(entries, rules, check).errors.Keys <= FoldEntries(entries, rules, check).sanitizedData.Keys
    decreases |entries|
  {
    if entries != [] {
      var init := entries[..|entries| - 1];
      FoldSanitizedKeys(init, rules, check);
      var n := |entries| - 1;
      assert (set k | 0 <= k < |entries| && entries[k].0 in rules :: entries[k].0) ==
        (set k | 0 <= k < |init| && init[k].0 in rules :: init[k].0) + (if entries[n].0 in rules then {entries[n].0} else {}) by {
        forall k | 0 <= k < |init| ensures init[k] == entries[k] { }
      }
    }
  }

  /** For any per-field check, in a valid result the k-th entry passed the check of its rule */
  lemma {:induction false} FoldFieldPasses(entries: seq<(string, string)>, rules: map<string, Rule>, check: (string, Rule) -> FieldOutcome, k: nat)
    requires FoldEntries(entries, rules, check).isValid
    requires k < |entries| && entries[k].0 in rules
    ensures check(entries[k].1, rules[entries[k].0]).error.None?
    decreases |entries|
  {
    var init := entries[..|entries| - 1];
    if k < |init| {
      assert init[k] == entries[k];
      FoldFieldPasses(init, rules, check, k);
    }
  }

  /** For any per-field check, the stored value of a field comes from its last entry */
  lemma {:induction false} FoldSanitizedValueOfLast(entries: seq<(string, string)>, rules: map<string, Rule>, check: (string, Rule) -> FieldOutcome, k: nat)
    requires k < |entries| && entries[k].0 in rules
    requires forall j :: k < j < |entries| ==> entries[j].0 != entries[k].0
    ensures entries[k].0 in FoldEntries(entries, rules, check).sanitizedData
    ensures FoldEntries(entries, rules, check).sanitizedData[entries[k].0] == check(entries[k].1, rules[entries[k].0]).sanitized
    decreases |entries|
  {
    if k < |entries| - 1 {
      FoldSanitizedValueOfLast(entries[..|entries| - 1], rules, check, k);
    }
  }

  /** The form is valid exactly when no field has an error */
  lemma FormValidIffNoErrors(entries: seq<(string, string)>, rules: map<string, Rule>, configuredMinLength: nat)
    ensures CheckEntries(entries, rules, configuredMinLength).isValid <==> CheckEntries(entries, rules, configuredMinLength).errors == map[]
  {
    FoldValidIffNoErrors(entries, rules, FieldCheck(configuredMinLength));
  }

  /** The fields with a rule, and only those, appear in sanitizedData; errors only name such fields */
  lemma SanitizedFieldsAreRuled(entries: seq<(string, string)>, rules: map<string, Rule>, configuredMinLength: nat)
    ensures CheckEntries(entries, rules, configuredMinLength).sanitizedData.Keys ==
      set k | 0 <= k < |entries| && entries[k].0 in rules :: entries[k].0
    ensures CheckEntries(entries, rules, configuredMinLength).errors.Keys <= CheckEntries(entries, rules, configuredMinLength).sanitizedData.Keys
  {
    FoldSanitizedKeys(entries, rules, FieldCheck(configuredMinLength));
  }

  /** In a valid form, the k-th entry passed every check of its rule */
  lemma ValidFormFieldPasses(entries: seq<(string, string)>, rules: map<string, Rule>, configuredMinLength: nat, k: nat)
    requires CheckEntries(entries, rules, configuredMinLength).isValid
    requires k < |entries| && entries[k].0 in rules
    ensures CheckField(entries[k].1, rules[entries[k].0], configuredMinLength).None?
  {
    FoldFieldPasses(entries, rules, FieldCheck(configuredMinLength), k);
  }

  /** A valid form passed every check on every ruled field */
  lemma ValidFormFieldsPass(entries: seq<(string, string)>, rules: map<string, Rule>, configuredMinLength: nat)
    requires CheckEntries(entries, rules, configuredMinLength).isValid
    ensures forall k :: 0 <= k < |entries| && entries[k].0 in rules ==> CheckField(entries[k].1, rules[entries[k].0], configuredMinLength).None?
  {
    forall k | 0 <= k < |entries| && entries[k].0 in rules
      ensures CheckField(entries[k].1, rules[entries[k].0], configuredMinLength).None?
    {
      ValidFormFieldPasses(entries, rules, configuredMinLength, k);
    }
  }

  /** The sanitised value of a field is the one from its last entry */
  lemma SanitizedValueOfLastEntry(entries: seq<(string, string)>, rules: map<string, Rule>, configuredMinLength: nat, k: nat)
    requires k < |entries| && entries[k].0 in rules
    requires forall j :: k < j < |entries| ==> entries[j].0 != entries[k].0
    ensures entries[k].0 in CheckEntries(entries, rules, configuredMinLength).sanitizedData
    ensures CheckEntries(entries, rules, configuredMinLength).sanitizedData[entries[k].0] == SanitizeField(entries[k].1, rules[entries[k].0])
  {
    FoldSanitizedValueOfLast(entries, rules, FieldCheck(configuredMinLength), k);
  }

  // ---------------------------------------------------------------- login lockout

  const LockedAccountsKey: string := "locked_accounts"

  /** `loginAttempts.get(id) || 0` */
  function AttemptsOf(attempts: map<string, nat>, identifier: string): nat {
    if identifier in attempts then attempts[identifier] else 0
  }

  /**
   * What loadLockedAccounts leaves in the set: the stored list without repeats, the
   * empty set for a missing key, and the current set when the stored value does not
   * parse as a list of identifiers (the catch branch).
   */
  function StoredLockedAccounts(items: map<string, Value>, current: seq<string>): (r: seq<string>)
    ensures NoDuplicates(current) ==> NoDuplicates(r)
    ensures LockedAccountsKey !in items ==> r == []
    ensures LockedAccountsKey in items && items[LockedAccountsKey].Identifiers? ==>
      forall id :: id in r <==> id in items[LockedAccountsKey].ids
  {
    if LockedAccountsKey !in items then []
    else match items[LockedAccountsKey]
      case Identifiers(ids) => Dedup(ids)
      case _ => current
  }

  /** Saving the set and loading it back gives the same set */
  lemma LockedAccountsRoundTrip(items: map<string, Value>, locked: seq<string>, current: seq<string>)
    requires NoDuplicates(locked)
    ensures StoredLockedAccounts(items[LockedAccountsKey := Identifiers(locked)], current) == locked
  {
    DedupDistinct(locked);
  }

  class SecurityManager {
    const local: StorageArea
    /** `maxLoginAttempts || 5` */
    const maxAttempts: nat
    /** `lockoutDuration || 15 * 60 * 1000`: the delay of each unlock timer */
    const lockoutDuration: nat
    var loginAttempts: map<string, nat>
    /** The Set of locked identifiers, in insertion order */
    var lockedAccounts: seq<string>
    /** Identifiers of the unlock timers still running, oldest first; they all have the same delay */
    var pendingUnlocks: seq<string>

    /** Every identifier whose counter reached the limit is locked, except those in `pending` */
    ghost predicate LockedAtLimit(pending: set<string>)
      reads this
    {
      forall id :: id in loginAttempts && loginAttempts[id] >= maxAttempts && id !in pending ==> id in lockedAccounts
    }

    ghost predicate Valid()
      reads this
    {
      maxAttempts >= 1 && NoDuplicates(lockedAccounts) && LockedAtLimit({})
    }

    /** new SecurityManager(): empty counters, then loadLockedAccounts */
    constructor (local: StorageArea, configuredMaxAttempts: nat, configuredLockoutDuration: nat)
      ensures this.local == local
      ensures maxAttempts == if configuredMaxAttempts != 0 then configuredMaxAttempts else 5
      ensures lockoutDuration == if configuredLockoutDuration != 0 then configuredLockoutDuration else 15 * 60 * 1000
      ensures loginAttempts == map[] && pendingUnlocks == []
      ensures lockedAccounts == StoredLockedAccounts(local.items, [])
      ensures Valid()
    {
      this.local := local;
      maxAttempts := if configuredMaxAttempts != 0 then configuredMaxAttempts else 5;
      lockoutDuration := if configuredLockoutDuration != 0 then configuredLockoutDuration else 15 * 60 * 1000;
      loginAttempts := map[];
      pendingUnlocks := [];
      lockedAccounts := StoredLockedAccounts(local.items, []);
    }

    /** isAccountLocked */
    function IsAccountLocked(identifier: string): (locked: bool)
      reads this
      ensures locked <==> identifier in lockedAccounts
      ensures Valid() && AttemptsOf(loginAttempts, identifier) >= maxAttempts ==> locked
    {
      identifier in lockedAccounts
    }

    /** saveLockedAccounts */
    method SaveLockedAccounts()
      modifies local
      ensures local.items == old(local.items)[LockedAccountsKey := Identifiers(lockedAccounts)]
    {
      local.SetItem(LockedAccountsKey, Identifiers(lockedAccounts));
    }

    /** loadLockedAccounts */
    method LoadLockedAccounts()
      modifies this
      ensures lockedAccounts == StoredLockedAccounts(local.items, old(lockedAccounts))
      ensures loginAttempts == old(loginAttempts) && pendingUnlocks == old(pendingUnlocks)
    {
      lockedAccounts := StoredLockedAccounts(local.items, lockedAccounts);
    }

    /** lockAccount: add to the set, start an unlock timer, persist the set */
    method LockAccount(identifier: string)
      requires maxAttempts >= 1 && NoDuplicates(lockedAccounts) && LockedAtLimit({identifier})
      modifies this, local
      ensures Valid()
      ensures lockedAccounts == AddValue(old(lockedAccounts), identifier)
      ensures pendingUnlocks == old(pendingUnlocks) + [identifier]
      ensures loginAttempts == old(loginAttempts)
      ensures local.items == old(local.items)[LockedAccountsKey := Identifiers(lockedAccounts)]
    {
      lockedAccounts := AddValue(lockedAccounts, identifier);
      pendingUnlocks := pendingUnlocks + [identifier];
      SaveLockedAccounts();
    }

    /** recordLoginAttempt */
    method RecordLoginAttempt(identifier: string, success: bool)
      requires Valid()
      modifies this, local
      ensures Valid()
      ensures success ==>
        loginAttempts == old(loginAttempts) - {identifier} &&
        lockedAccounts == RemoveValue(old(lockedAccounts), identifier) &&
        pendingUnlocks == old(pendingUnlocks) && local.items == old(local.items)
      ensures !success ==> loginAttempts == old(loginAttempts)[identifier := AttemptsOf(old(loginAttempts), identifier) + 1]
      ensures !success && AttemptsOf(old(loginAttempts), identifier) + 1 >= maxAttempts ==>
        lockedAccounts == AddValue(old(lockedAccounts), identifier) &&
        pendingUnlocks == old(pendingUnlocks) + [identifier] &&
        local.items == old(local.items)[LockedAccountsKey := Identifiers(lockedAccounts)]
      ensures !success && AttemptsOf(old(loginAttempts), identifier) + 1 < maxAttempts ==>
        lockedAccounts == old(lockedAccounts) && pendingUnlocks == old(pendingUnlocks) && local.items == old(local.items)
      ensures IsAccountLocked(identifier) <==>
        !success && (old(IsAccountLocked(identifier)) || AttemptsOf(old(loginAttempts), identifier) + 1 >= maxAttempts)
    {
      if success {
        loginAttempts := loginAttempts - {identifier};
        lockedAccounts := RemoveValue(lockedAccounts, identifier);
        return;
      }
      var attempts := AttemptsOf(loginAttempts, identifier);
      var newAttempts := attempts + 1;
      loginAttempts := loginAttempts[identifier := newAttempts];
      if newAttempts >= maxAttempts {
        LockAccount(identifier);
      }
    }

    /**
     * The oldest unlock timer fires: it deletes the lock and the counter. The
     * persisted list is not rewritten.
     */
    method ExpireLockout()
      requires Valid()
      modifies this
      ensures Valid()
      ensures old(pendingUnlocks) == [] ==>
        pendingUnlocks == [] && lockedAccounts == old(lockedAccounts) && loginAttempts == old(loginAttempts)
      ensures old(pendingUnlocks) != [] ==>
        var identifier := old(pendingUnlocks)[0];
        pendingUnlocks == old(pendingUnlocks)[1..] &&
        lockedAccounts == RemoveValue(old(lockedAccounts), identifier) &&
        loginAttempts == old(loginAttempts) - {identifier} &&
        !IsAccountLocked(identifier)
    {
      if pendingUnlocks != [] {
        var identifier := pendingUnlocks[0];
        pendingUnlocks := pendingUnlocks[1..];
        lockedAccounts := RemoveValue(lockedAccounts, identifier);
        loginAttempts := loginAttempts - {identifier};
      }
    }
  }

  /** Five failed logins in a row lock an identifier that had no count and no lock, and persist the lock */
  method FailFiveTimes(manager: SecurityManager, user: string)
    requires manager.Valid() && manager.maxAttempts == 5
    requires manager.loginAttempts == map[] && manager.lockedAccounts == []
    modifies manager, manager.local
    ensures manager.Valid()
    ensures manager.loginAttempts == map[user := 5] && manager.lockedAccounts == [user]
    ensures manager.pendingUnlocks == old(manager.pendingUnlocks) + [user]
    ensures manager.local.items == old(manager.local.items)[LockedAccountsKey := Identifiers([user])]
  {
    var n := 0;
    while n < 5
      invariant 0 <= n <= 5
      invariant manager.Valid()
      invariant manager.loginAttempts == if n == 0 then map[] else map[user := n]
      invariant manager.lockedAccounts == if n == 5 then [user] else []
      invariant manager.pendingUnlocks == old(manager.pendingUnlocks) + (if n == 5 then [user] else [])
      invariant manager.local.items ==
        if n == 5 then old(manager.local.items)[LockedAccountsKey := Identifiers([user])] else old(manager.local.items)
    {
      manager.RecordLoginAttempt(user, false);
      n := n + 1;
    }
  }

  /**
   * Five failures lock an identifier, the lockout expiry unlocks it, and a success
   * after a second lock clears the lock while the stored list still names it.
   */
  method LockoutScenario() returns (lockedAfterFive: bool, lockedAfterExpiry: bool, lockedAfterSuccess: bool, storedAfterSuccess: bool)
    ensures lockedAfterFive && !lockedAfterExpiry && !lockedAfterSuccess && storedAfterSuccess
  {
    var local := new StorageArea(map[]);
    var manager := new SecurityManager(local, 0, 0);
    var user := "admin";
    FailFiveTimes(manager, user);
    lockedAfterFive := manager.IsAccountLocked(user);
    manager.ExpireLockout();
    lockedAfterExpiry := manager.IsAccountLocked(user);
    assert manager.loginAttempts == map[];
    FailFiveTimes(manager, user);
    manager.RecordLoginAttempt(user, true);
    lockedAfterSuccess := manager.IsAccountLocked(user);
    storedAfterSuccess := LockedAccountsKey in local.items && local.items[LockedAccountsKey] == Identifiers([user]);
  }
}

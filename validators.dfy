/**
 * Input checks of internal/utils/validators.go: usernames, password strength,
 * and the decision CheckURLValidity takes once the URL has been parsed.
 *
 * Lengths are Go's `len`, the UTF-8 byte count (ByteLen). The Unicode letter
 * and digit classes are not modelled: the password check takes them as
 * arguments. URL parsing is not modelled either: the URL check receives the
 * parser's result, None when parsing failed.
 */
module Validators {
  import opened Common

  datatype UsernameError = UsernameTooShort | UsernameTooLong | UsernameBadCharacters
  datatype PasswordError = PasswordTooShort | PasswordNoLetter | PasswordNoDigit

  /** The two parts of a parsed URL that the checks look at. */
  datatype ParsedURL = ParsedURL(scheme: string, host: string)

  /** The character class `[a-zA-Z0-9_]`. */
  predicate IsUsernameChar(c: char)
  {
    ('a' <= c <= 'z') || ('A' <= c <= 'Z') || ('0' <= c <= '9') || c == '_'
  }

  /** The whole string matches `^[a-zA-Z0-9_]+$`. */
  predicate MatchesUsernamePattern(u: string)
  {
    |u| > 0 && forall i | 0 <= i < |u| :: IsUsernameChar(u[i])
  }

  /** Some rune of `s` is in the class `inClass`. */
  predicate HasRune(s: string, inClass: char -> bool)
  {
    exists i | 0 <= i < |s| :: inClass(s[i])
  }

  function CheckUsernameValidity(username: string): (r: Outcome<UsernameError>)
    ensures r == Pass <==> ByteLen(username) >= 3 && MatchesUsernamePattern(username)
    ensures r == Fail(UsernameTooShort) <==> ByteLen(username) < 3
    ensures r == Fail(UsernameBadCharacters) <==> ByteLen(username) >= 3 && !MatchesUsernamePattern(username)
  {
    if ByteLen(username) < 3 then Fail(UsernameTooShort)
    else if !MatchesUsernamePattern(username) then Fail(UsernameBadCharacters)
    else Pass
  }

  /** A string that matches the username pattern is ASCII, so its byte length is its length. */
  lemma PatternMatchIsAscii(u: string)
    requires MatchesUsernamePattern(u)
    ensures ByteLen(u) == |u|
  {
    ByteLenOfAscii(u);
  }

  /** An accepted username has at least three characters, all from the class. */
  lemma AcceptedUsernameHasThreeChars(u: string)
    requires CheckUsernameValidity(u) == Pass
    ensures |u| >= 3 && forall i | 0 <= i < |u| :: IsUsernameChar(u[i])
  {
    PatternMatchIsAscii(u);
  }

  /**
   * The password check: too short (in bytes) first, then no letter, then no
   * digit. Each class is searched by a loop that stops at the first match.
   */
  method CheckPasswordStrengthValidity(password: string, isLetter: char -> bool, isDigit: char -> bool)
    returns (r: Outcome<PasswordError>)
    ensures ByteLen(password) < 6 ==> r == Fail(PasswordTooShort)
    ensures ByteLen(password) >= 6 && !HasRune(password, isLetter) ==> r == Fail(PasswordNoLetter)
    ensures ByteLen(password) >= 6 && HasRune(password, isLetter) && !HasRune(password, isDigit) ==> r == Fail(PasswordNoDigit)
    ensures r == Pass <==> ByteLen(password) >= 6 && HasRune(password, isLetter) && HasRune(password, isDigit)
  {
    if ByteLen(password) < 6 {
      return Fail(PasswordTooShort);
    }

    var hasLetter := false;
    var i := 0;
    while i < |password|
      invariant 0 <= i <= |password|
      invariant hasLetter ==> HasRune(password, isLetter)
      invariant !hasLetter ==> forall j | 0 <= j < i :: !isLetter(password[j])
    {
      if isLetter(password[i]) {
        hasLetter := true;
        break;
      }
      i := i + 1;
    }
    if !hasLetter {
      return Fail(PasswordNoLetter);
    }

    var hasDigit := false;
    i := 0;
    while i < |password|
      invariant 0 <= i <= |password|
      invariant hasDigit ==> HasRune(password, isDigit)
      invariant !hasDigit ==> forall j | 0 <= j < i :: !isDigit(password[j])
    {
      if isDigit(password[i]) {
        hasDigit := true;
        break;
      }
      i := i + 1;
    }
    if !hasDigit {
      return Fail(PasswordNoDigit);
    }

    return Pass;
  }

  /**
   * After parsing: the scheme must be http or https, the host non-empty, and in
   * strict mode the host must contain a dot.
   */
  function CheckURLValidity(parsed: Option<ParsedURL>, strict: bool): (r: bool)
    ensures r <==> && parsed.Some?
                   && (parsed.value.scheme == "http" || parsed.value.scheme == "https")
                   && parsed.value.host != ""
                   && (strict ==> '.' in parsed.value.host)
  {
    match parsed
    case None => false
    case Some(u) =>
      if u.scheme != "http" && u.scheme != "https" then false
      else if u.host == "" then false
      else if strict && '.' !in u.host then false
      else true
  }

  /** Strict mode only ever rejects more: a URL it accepts is accepted without it. */
  lemma StrictImpliesLenient(parsed: Option<ParsedURL>)
    ensures CheckURLValidity(parsed, true) ==> CheckURLValidity(parsed, false)
    ensures CheckURLValidity(parsed, false) && '.' in parsed.value.host ==> CheckURLValidity(parsed, true)
  {
  }
}

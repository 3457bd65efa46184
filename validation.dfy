/** The form validators: a todo's text, a password and an e-mail address.
    Lengths are JavaScript string lengths, counted in UTF-16 code units. */
module Validation {
  import opened Wrappers

  datatype ValidationResult = ValidationResult(valid: bool, message: Option<string>)

  const TodoEmptyMessage := "Todo text cannot be empty"
  const TodoTooLongMessage := "Todo text is too long (max 500 characters)"
  const PasswordShortMessage := "Password must be at least 8 characters"
  const MaxTodoLength := 500
  const MinPasswordLength := 8

  /** The characters `trim()` strips and `\s` matches: the ECMAScript white
      space and line terminator characters. */
  predicate IsJsWhitespace(c: char) {
    c == '\t' || c == '\n' || c == '\U{000B}' || c == '\U{000C}' || c == '\r' || c == ' ' ||
    c == '\U{00A0}' || c == '\U{1680}' || ('\U{2000}' <= c <= '\U{200A}') ||
    c == '\U{2028}' || c == '\U{2029}' || c == '\U{202F}' || c == '\U{205F}' ||
    c == '\U{3000}' || c == '\U{FEFF}'
  }

  /** `s.length`: characters outside the Basic Multilingual Plane take two
      UTF-16 code units. */
  function JsLength(s: string): (n: nat)
    ensures n >= |s|
  {
    if s == [] then 0 else (if s[0] > '\U{FFFF}' then 2 else 1) + JsLength(s[1..])
  }

  /** For text in the Basic Multilingual Plane the length is the number of
      characters. */
  lemma {:induction false} JsLengthBmp(s: string)
    requires forall i :: 0 <= i < |s| ==> s[i] <= '\U{FFFF}'
    ensures JsLength(s) == |s|
  {
    if s != [] {
      assert forall i :: 0 <= i < |s[1..]| ==> s[1..][i] == s[i + 1];
      JsLengthBmp(s[1..]);
    }
  }

  function TrimStart(s: string): (r: string)
    ensures |r| <= |s| && r == s[|s| - |r|..]
    ensures r != [] ==> !IsJsWhitespace(r[0])
  {
    if s != [] && IsJsWhitespace(s[0]) then TrimStart(s[1..]) else s
  }

  function TrimEnd(s: string): (r: string)
    ensures |r| <= |s| && r == s[..|r|]
    ensures r != [] ==> !IsJsWhitespace(r[|r| - 1])
  {
    if s != [] && IsJsWhitespace(s[|s| - 1]) then TrimEnd(s[..|s| - 1]) else s
  }

  /** `s.trim()`. */
  function Trim(s: string): (r: string)
    ensures |r| <= |s|
    ensures r != [] ==> !IsJsWhitespace(r[0]) && !IsJsWhitespace(r[|r| - 1])
  {
    TrimEnd(TrimStart(s))
  }

  /** Every character is white space. */
  predicate IsBlank(s: string) {
    forall i :: 0 <= i < |s| ==> IsJsWhitespace(s[i])
  }

  /** Trimming strips everything exactly when the text is blank. */
  lemma {:induction false} TrimStartEmpty(s: string)
    ensures TrimStart(s) == [] <==> IsBlank(s)
    ensures TrimStart(s) != [] ==> !IsJsWhitespace(TrimStart(s)[0])
  {
    if s != [] && IsJsWhitespace(s[0]) {
      TrimStartEmpty(s[1..]);
      assert forall i :: 1 <= i < |s| ==> s[i] == s[1..][i - 1];
    }
  }

  lemma {:induction false} TrimEndKeepsNonEmpty(s: string)
    requires s != [] && !IsJsWhitespace(s[0])
    ensures TrimEnd(s) != []
  {
    if |s| > 1 && IsJsWhitespace(s[|s| - 1]) {
      TrimEndKeepsNonEmpty(s[..|s| - 1]);
    }
  }

  lemma TrimEmptyIffBlank(s: string)
    ensures Trim(s) == "" <==> IsBlank(s)
  {
    TrimStartEmpty(s);
    if TrimStart(s) != [] {
      TrimEndKeepsNonEmpty(TrimStart(s));
    }
  }

  /** `validateTodo(text)`: blank text is refused first, then text longer
      than 500; a valid result carries no message. */
  function ValidateTodo(text: string): (r: ValidationResult)
    ensures r.valid <==> !IsBlank(text) && JsLength(text) <= MaxTodoLength
    ensures r.valid <==> r.message.None?
    ensures IsBlank(text) ==> r.message == Some(TodoEmptyMessage)
    ensures !IsBlank(text) && JsLength(text) > MaxTodoLength ==> r.message == Some(TodoTooLongMessage)
  {
    TrimEmptyIffBlank(text);
    if Trim(text) == "" then ValidationResult(false, Some(TodoEmptyMessage))
    else if JsLength(text) > MaxTodoLength then ValidationResult(false, Some(TodoTooLongMessage))
    else ValidationResult(true, None)
  }

  /** The boundary: 500 non-blank characters pass, 501 do not, and 600
      spaces are reported as empty rather than too long. */
  lemma TodoLengthBoundary(s: string, c: char)
    requires |s| == MaxTodoLength && !IsBlank(s)
    requires forall i :: 0 <= i < |s| ==> s[i] <= '\U{FFFF}'
    requires c <= '\U{FFFF}'
    ensures ValidateTodo(s).valid
    ensures !ValidateTodo(s + [c]).valid
    ensures ValidateTodo(seq(600, _ => ' ')).message == Some(TodoEmptyMessage)
  {
    JsLengthBmp(s);
    var t := s + [c];
    JsLengthBmp(t);
    var i :| 0 <= i < |s| && !IsJsWhitespace(s[i]);
    assert t[i] == s[i];
    SpacesAreEmpty(600);
  }

  /** Any run of spaces, however long, is reported as empty. */
  lemma SpacesAreEmpty(n: nat)
    ensures ValidateTodo(seq(n, _ => ' ')).message == Some(TodoEmptyMessage)
  {
    var spaces := seq(n, _ => ' ');
    assert forall i :: 0 <= i < |spaces| ==> spaces[i] == ' ';
  }

  /** `validatePassword(password)`: at least eight characters. */
  function ValidatePassword(password: string): (r: ValidationResult)
    ensures r.valid <==> JsLength(password) >= MinPasswordLength
    ensures r.valid <==> r.message.None?
    ensures !r.valid ==> r.message == Some(PasswordShortMessage)
  {
    if JsLength(password) < MinPasswordLength then ValidationResult(false, Some(PasswordShortMessage))
    else ValidationResult(true, None)
  }

  /** A character `[^\s@]` matches. */
  predicate IsEmailChar(c: char) {
    !IsJsWhitespace(c) && c != '@'
  }

  predicate AllEmailChars(s: string) {
    forall i :: 0 <= i < |s| ==> IsEmailChar(s[i])
  }

  /** The index of the first `c` in `s`. */
  function IndexOf(s: string, c: char): (r: Option<nat>)
    ensures r.None? <==> c !in s
    ensures r.Some? ==> r.value < |s| && s[r.value] == c && c !in s[..r.value]
  {
    if s == [] then None
    else if s[0] == c then Some(0)
    else
      match IndexOf(s[1..], c)
      case None => None
      case Some(k) =>
        assert s[..k + 1] == [s[0]] + s[1..][..k];
        Some(k + 1)
  }

  /** `validateEmail(email)`: the text before the first `@` is a non-empty
      run of `[^\s@]`; after it, no `@` and no white space, with a dot that
      has at least one character on each side. */
  function ValidateEmail(email: string): (ok: bool)
    ensures ok ==> |email| >= 5 && '@' in email
    ensures ok ==> email[0] != '@' && email[|email| - 1] != '@'
  {
    match IndexOf(email, '@')
    case None => false
    case Some(a) =>
      var rest := email[a + 1..];
      a > 0 && AllEmailChars(email[..a]) && AllEmailChars(rest) &&
      |rest| >= 3 && '.' in rest[1..|rest| - 1]
  }

  /** `email` is `local@domain.tld` with the `@` at `at` and the dot at
      `dot`, each part a non-empty run of `[^\s@]`. */
  predicate EmailShape(email: string, at: int, dot: int)
  {
    0 < at && at + 1 < dot && dot + 1 < |email| &&
    email[at] == '@' && email[dot] == '.' &&
    AllEmailChars(email[..at]) && AllEmailChars(email[at + 1..dot]) && AllEmailChars(email[dot + 1..])
  }

  /** The shape splits the address into its three parts. */
  lemma EmailShapeParts(email: string, at: int, dot: int)
    requires EmailShape(email, at, dot)
    ensures email == email[..at] + "@" + email[at + 1..dot] + "." + email[dot + 1..]
  {
  }

  /** The regular expression `^[^\s@]+@[^\s@]+\.[^\s@]+$` accepts exactly
      the addresses of that shape. */
  lemma ValidateEmailMatchesShape(email: string)
    ensures ValidateEmail(email) <==> exists at, dot :: EmailShape(email, at, dot)
  {
    if ValidateEmail(email) {
      AcceptedHasShape(email);
    }
    if exists at, dot :: EmailShape(email, at, dot) {
      var at, dot :| EmailShape(email, at, dot);
      ShapeIsAccepted(email, at, dot);
    }
  }

  /** An accepted address splits at its first `@` and a dot after it. */
  lemma AcceptedHasShape(email: string)
    requires ValidateEmail(email)
    ensures exists at, dot :: EmailShape(email, at, dot)
  {
    var a := IndexOf(email, '@').value;
    var rest := email[a + 1..];
    var mid := rest[1..|rest| - 1];
    var k :| 0 <= k < |mid| && mid[k] == '.';
    var dot := a + 2 + k;
    assert email[dot] == '.';
    assert email[a + 1..dot] == rest[..k + 1];
    assert email[dot + 1..] == rest[k + 2..];
    assert EmailShape(email, a, dot);
  }

  /** An address of the shape is accepted: its `@` is the first one. */
  lemma ShapeIsAccepted(email: string, at: int, dot: int)
    requires EmailShape(email, at, dot)
    ensures ValidateEmail(email)
  {
    assert '@' !in email[..at] by {
      assert forall i :: 0 <= i < at ==> email[..at][i] != '@';
    }
    var idx := IndexOf(email, '@');
    assert idx == Some(at);
    var rest := email[at + 1..];
    assert AllEmailChars(rest) by {
      forall i | 0 <= i < |rest| ensures IsEmailChar(rest[i]) {
        if at + 1 + i < dot {
          assert rest[i] == email[at + 1..dot][i];
        } else if at + 1 + i > dot {
          assert rest[i] == email[dot + 1..][at + i - dot];
        }
      }
    }
    assert rest[1..|rest| - 1][dot - at - 2] == '.';
  }

  /** A valid address contains exactly one `@`. */
  lemma ValidEmailHasOneAt(email: string)
    requires ValidateEmail(email)
    ensures multiset(email)['@'] == 1
  {
    var a := IndexOf(email, '@').value;
    assert email == email[..a] + [email[a]] + email[a + 1..];
    assert '@' !in email[..a];
    assert '@' !in email[a + 1..] by {
      assert AllEmailChars(email[a + 1..]);
    }
    assert multiset(email) == multiset(email[..a]) + multiset([email[a]]) + multiset(email[a + 1..]);
  }
}

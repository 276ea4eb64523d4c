/** Input validation and sanitisation: `InputValidator`, `InputSanitizer`,
    `validate_and_sanitize_input` and `escape_markdown`. A validator either returns a value or
    raises a `ValidationError` naming the field; both outcomes are values of `Result`. */
module Security {
  import opened Strings
  import opened Exceptions
  import opened SecurityPatterns

  function Invalid<T>(message: string, fieldName: string): Result<T> {
    Err(ValidationError(message, Some(fieldName)))
  }

  predicate RaisesValidation<T>(r: Result<T>, fieldName: string) {
    r.Err? && r.error.ValidationError? && r.error.fieldName == Some(fieldName)
  }

  // ---------------------------------------------------------------- length and choice

  function TooShortMessage(fieldName: string, minLength: int): string {
    fieldName + " must be at least " + IntToString(minLength) + " characters"
  }

  function TooLongMessage(fieldName: string, maxLength: int): string {
    fieldName + " must be no more than " + IntToString(maxLength) + " characters"
  }

  /** `validate_length`: a missing value counts as the empty string; the lower bound is
      checked first; an absent upper bound is no bound. */
  function ValidateLength(value: Option<string>, minLength: int := 0, maxLength: Option<int> := None,
                          fieldName: string := "value"): (r: Result<string>)
    ensures var v := if value.Some? then value.value else "";
      && (r.Ok? <==> minLength <= |v| && (maxLength.Some? ==> |v| <= maxLength.value))
      && (r.Ok? ==> r.value == v)
      && (r.Err? ==> RaisesValidation(r, fieldName))
      && (|v| < minLength ==> r.error.message == TooShortMessage(fieldName, minLength))
      && (minLength <= |v| && maxLength.Some? && |v| > maxLength.value ==>
            r.error.message == TooLongMessage(fieldName, maxLength.value))
  {
    var v := if value.Some? then value.value else "";
    if |v| < minLength then Invalid(TooShortMessage(fieldName, minLength), fieldName)
    else if maxLength.Some? && |v| > maxLength.value then Invalid(TooLongMessage(fieldName, maxLength.value), fieldName)
    else Ok(v)
  }

  lemma ValidateLengthAcceptsExample()
    ensures ValidateLength(Some("This is a valid text"), 5, Some(100), "test_field") == Ok("This is a valid text")
    ensures ValidateLength(None) == Ok("")
  {
  }

  lemma ValidateLengthTooShortExample()
    ensures ValidateLength(Some("hi"), 5, Some(100), "test_field")
            == Invalid("test_field" + " must be at least " + "5" + " characters", "test_field")
  {
    assert IntToString(5) == "5";
  }

  lemma ValidateLengthTooLongExample()
    ensures ValidateLength(Some(seq(101, _ => 'A')), 5, Some(100), "test_field")
            == Invalid("test_field" + " must be no more than " + "100" + " characters", "test_field")
  {
    assert IntToString(100) == "100" by {
      assert NatToString(100) == NatToString(10) + "0";
      assert NatToString(10) == NatToString(1) + "0";
    }
  }

  /** `validate_choice`: the value is returned exactly when it is one of the choices. */
  function ValidateChoice(value: string, choices: seq<string>, fieldName: string := "value"): (r: Result<string>)
    ensures r.Ok? <==> value in choices
    ensures r.Ok? ==> r.value == value
    ensures r.Err? ==>
      RaisesValidation(r, fieldName) && r.error.message == fieldName + " must be one of: " + Join(choices, ", ")
  {
    if value !in choices then Invalid(fieldName + " must be one of: " + Join(choices, ", "), fieldName)
    else Ok(value)
  }

  // ---------------------------------------------------------------- Discord ids

  predicate AllDigits(s: string) {
    forall i :: 0 <= i < |s| ==> IsDigit(s[i])
  }

  /** A Discord id: 17 to 20 digits, nothing else. */
  predicate IsDiscordId(s: string) {
    17 <= |s| <= 20 && AllDigits(s)
  }

  /** What `re.match(r'^\d{17,20}$', s)` accepts: `$` also matches just before a final newline,
      so 17 to 20 digits followed by one "\n" are accepted too. */
  predicate DiscordIdPatternAsWritten(s: string) {
    var body := if |s| > 0 && s[|s| - 1] == '\n' then s[..|s| - 1] else s;
    IsDiscordId(body)
  }

  function DiscordIdRequired(fieldName: string): string { fieldName + " is required" }

  function DiscordIdInvalid(fieldName: string): string {
    "Invalid " + fieldName + " format. Must be 17-20 digits"
  }

  /** `validate_discord_id` as written, with `$` accepting a trailing newline. */
  function ValidateDiscordIdAsWritten(discordId: string, fieldName: string := "discord_id"): (r: Result<string>)
    ensures r.Ok? <==> DiscordIdPatternAsWritten(discordId)
    ensures r.Ok? ==> r.value == discordId
    ensures r.Err? ==> RaisesValidation(r, fieldName)
  {
    if discordId == "" then Invalid(DiscordIdRequired(fieldName), fieldName)
    else if !DiscordIdPatternAsWritten(discordId) then Invalid(DiscordIdInvalid(fieldName), fieldName)
    else Ok(discordId)
  }

  /** The discrepancy: an id with a trailing newline passes and is returned with the newline. */
  lemma DiscordIdAsWrittenAcceptsNewline()
    ensures ValidateDiscordIdAsWritten("123456789012345678\n") == Ok("123456789012345678\n")
    ensures !IsDiscordId("123456789012345678\n")
  {
    var s := "123456789012345678\n";
    assert s[..|s| - 1] == "123456789012345678";
    assert !IsDigit(s[18]);
  }

  /** `validate_discord_id` accepting exactly the strings of 17 to 20 digits. */
  function ValidateDiscordId(discordId: string, fieldName: string := "discord_id"): (r: Result<string>)
    ensures r.Ok? <==> IsDiscordId(discordId)
    ensures r.Ok? ==> r.value == discordId
    ensures discordId == "" ==> r == Invalid(DiscordIdRequired(fieldName), fieldName)
    ensures discordId != "" && !IsDiscordId(discordId) ==> r == Invalid(DiscordIdInvalid(fieldName), fieldName)
  {
    if discordId == "" then Invalid(DiscordIdRequired(fieldName), fieldName)
    else if !IsDiscordId(discordId) then Invalid(DiscordIdInvalid(fieldName), fieldName)
    else Ok(discordId)
  }

  /** The two agree on every input that does not end in a newline. */
  lemma DiscordIdVersionsAgree(s: string, fieldName: string)
    requires s == [] || s[|s| - 1] != '\n'
    ensures ValidateDiscordIdAsWritten(s, fieldName) == ValidateDiscordId(s, fieldName)
  {
  }

  lemma DiscordIdExamples()
    ensures ValidateDiscordId("123456789012345678") == Ok("123456789012345678")
    ensures ValidateDiscordId("") == Invalid("discord_id" + " is required", "discord_id")
    ensures RaisesValidation(ValidateDiscordId("123"), "discord_id")
    ensures RaisesValidation(ValidateDiscordId("abc123"), "discord_id")
    ensures RaisesValidation(ValidateDiscordId("1234567890123456"), "discord_id")
    ensures RaisesValidation(ValidateDiscordId("123456789012345678901"), "discord_id")
    ensures RaisesValidation(ValidateDiscordId("123-456-789"), "discord_id")
  {
    assert !IsDigit("abc123"[0]);
    assert !IsDigit("123-456-789"[3]);
  }

  // ---------------------------------------------------------------- currency codes

  /** `^[A-Z]{3}$` on a stripped string (which cannot end in a newline). */
  predicate IsCurrencyCode(s: string) {
    |s| == 3 && IsUpperLetter(s[0]) && IsUpperLetter(s[1]) && IsUpperLetter(s[2])
  }

  /** `validate_currency_code`: strip and upper-case, then require three letters A-Z. */
  function ValidateCurrencyCode(currency: string, fieldName: string := "currency"): (r: Result<string>)
    ensures currency == "" ==> r == Invalid(fieldName + " is required", fieldName)
    ensures r.Ok? <==> currency != "" && IsCurrencyCode(Upper(Strip(currency)))
    ensures r.Ok? ==> IsCurrencyCode(r.value) && r.value == Upper(Strip(currency))
    ensures r.Err? ==> RaisesValidation(r, fieldName)
  {
    if currency == "" then Invalid(fieldName + " is required", fieldName)
    else
      var code := Upper(Strip(currency));
      if !IsCurrencyCode(code) then Invalid("Invalid " + fieldName + " format. Must be 3 uppercase letters", fieldName)
      else Ok(code)
  }

  /** A string without leading or trailing whitespace is its own strip. */
  lemma StripUnchanged(s: string)
    requires s != [] && !IsSpace(s[0]) && !IsSpace(s[|s| - 1])
    ensures Strip(s) == s
  {
    assert StripStart(s) == s;
  }

  /** A valid code is returned unchanged, so validation is idempotent. */
  lemma CurrencyCodeFixpoint(code: string, fieldName: string)
    requires IsCurrencyCode(code)
    ensures ValidateCurrencyCode(code, fieldName) == Ok(code)
  {
    StripUnchanged(code);
    assert Upper(code) == code;
  }

  /** Without surrounding whitespace only the upper-casing matters. */
  lemma CurrencyCodeUnstripped(currency: string)
    requires currency != [] && !IsSpace(currency[0]) && !IsSpace(currency[|currency| - 1])
    ensures ValidateCurrencyCode(currency).Ok? <==> IsCurrencyCode(Upper(currency))
    ensures ValidateCurrencyCode(currency).Ok? ==> ValidateCurrencyCode(currency).value == Upper(currency)
  {
    StripUnchanged(currency);
  }

  /** Lower-case input is upper-cased and passes. */
  lemma CurrencyCodeLowerCaseExample()
    ensures ValidateCurrencyCode("usd") == Ok("USD")
  {
    CurrencyCodeUnstripped("usd");
    assert Upper("usd") == "USD";
  }

  /** Wrong lengths are rejected. */
  lemma CurrencyCodeLengthExamples()
    ensures RaisesValidation(ValidateCurrencyCode("us"), "currency")
    ensures RaisesValidation(ValidateCurrencyCode("usdd"), "currency")
  {
    CurrencyCodeUnstripped("us");
    CurrencyCodeUnstripped("usdd");
  }

  /** A character that is not a letter, anywhere in an unpadded argument, gets it rejected. */
  lemma CurrencyCodeRejectsNonLetter(currency: string, i: int)
    requires currency != [] && !IsSpace(currency[0]) && !IsSpace(currency[|currency| - 1])
    requires 0 <= i < |currency| && !IsLetter(currency[i])
    ensures RaisesValidation(ValidateCurrencyCode(currency), "currency")
  {
    CurrencyCodeUnstripped(currency);
    assert Upper(currency)[i] == currency[i];
  }

  /** Characters other than letters are rejected. */
  lemma CurrencyCodeCharacterExamples()
    ensures RaisesValidation(ValidateCurrencyCode("us$"), "currency")
    ensures RaisesValidation(ValidateCurrencyCode("123"), "currency")
  {
    CurrencyCodeRejectsNonLetter("us$", 2);
    CurrencyCodeRejectsNonLetter("123", 0);
  }

  // ---------------------------------------------------------------- e-mail addresses

  predicate IsEmailLocalChar(c: char) {
    IsLetter(c) || IsDigit(c) || c == '.' || c == '_' || c == '%' || c == '+' || c == '-'
  }

  predicate IsEmailDomainChar(c: char) {
    IsLetter(c) || IsDigit(c) || c == '.' || c == '-'
  }

  /** The whole of `s` is `[a-zA-Z0-9._%+-]+@[a-zA-Z0-9.-]+\.[a-zA-Z]{2,}`: the `@` at `at`
      and the dot before the final letters at `dot`. */
  predicate EmailShapeAt(s: string, at: int, dot: int) {
    && 0 < at && at + 1 < dot && dot < |s| - 2
    && s[at] == '@' && s[dot] == '.'
    && (forall i :: 0 <= i < at ==> IsEmailLocalChar(s[i]))
    && (forall i :: at < i < dot ==> IsEmailDomainChar(s[i]))
    && (forall i :: dot < i < |s| ==> IsLetter(s[i]))
  }

  predicate EmailShape(s: string) {
    exists at, dot :: 0 <= at < |s| && 0 <= dot < |s| && EmailShapeAt(s, at, dot)
  }

  /** What `re.match` with the e-mail pattern accepts: the shape, possibly followed by one "\n". */
  predicate EmailPatternMatches(s: string) {
    EmailShape(s) || (|s| > 0 && s[|s| - 1] == '\n' && EmailShape(s[..|s| - 1]))
  }

  /** `validate_email`: the matched address, stripped and lower-cased. */
  function ValidateEmail(email: string, fieldName: string := "email"): (r: Result<string>)
    ensures r.Ok? <==> EmailPatternMatches(email)
    ensures r.Ok? ==> EmailShape(r.value) && forall i :: 0 <= i < |r.value| ==> !IsUpperLetter(r.value[i])
    ensures r.Ok? ==> r.value == Lower(Strip(email))
    ensures email == "" ==> r == Invalid(fieldName + " is required", fieldName)
    ensures email != "" && r.Err? ==> r == Invalid("Invalid " + fieldName + " format", fieldName)
    ensures r.Err? ==> RaisesValidation(r, fieldName)
  {
    if email == "" then Invalid(fieldName + " is required", fieldName)
    else if !EmailPatternMatches(email) then Invalid("Invalid " + fieldName + " format", fieldName)
    else
      EmailNormalForm(email);
      Ok(Lower(Strip(email)))
  }

  /** Lower-casing keeps every character in its class, so it keeps the shape. */
  lemma EmailShapeLower(s: string)
    requires EmailShape(s)
    ensures EmailShape(Lower(s))
  {
    var at, dot :| 0 <= at < |s| && 0 <= dot < |s| && EmailShapeAt(s, at, dot);
    var l := Lower(s);
    assert |l| == |s|;
    assert 0 < at && at + 1 < dot && dot < |l| - 2;
    assert l[at] == '@' && l[dot] == '.';
    assert EmailShapeAt(l, at, dot);
  }

  /** An address of the right shape begins and ends with a non-space, so strip leaves it, or
      removes just the newline after it. */
  lemma EmailStrip(s: string)
    requires EmailPatternMatches(s)
    ensures EmailShape(Strip(s))
  {
    if EmailShape(s) {
      EmailStripPlain(s);
    } else {
      EmailStripNewline(s[..|s| - 1], s);
    }
  }

  lemma EmailStripPlain(s: string)
    requires EmailShape(s)
    ensures Strip(s) == s
  {
    EmailShapeEnds(s);
    StripUnchanged(s);
  }

  lemma EmailStripNewline(t: string, s: string)
    requires EmailShape(t) && s == t + "\n"
    ensures Strip(s) == t
  {
    EmailShapeEnds(t);
    assert s[0] == t[0];
    StripStartUnchanged(s);
    StripEndDropsTrailing(t, s);
  }

  /** An address of the right shape starts with a local-part character and ends with a letter. */
  lemma EmailShapeEnds(s: string)
    requires EmailShape(s)
    ensures s != [] && !IsSpace(s[0]) && !IsSpace(s[|s| - 1])
  {
    var at, dot :| 0 <= at < |s| && 0 <= dot < |s| && EmailShapeAt(s, at, dot);
    assert IsEmailLocalChar(s[0]);
    assert IsLetter(s[|s| - 1]);
  }

  lemma StripStartUnchanged(s: string)
    requires s != [] && !IsSpace(s[0])
    ensures StripStart(s) == s
  {
  }

  /** Strip removes a trailing newline after a last non-space character, and nothing more. */
  lemma StripEndDropsTrailing(t: string, s: string)
    requires t != [] && !IsSpace(t[|t| - 1]) && s == t + "\n"
    ensures StripEnd(s) == t
  {
    assert s[..|s| - 1] == t;
    assert StripEnd(t) == t;
  }

  lemma EmailNormalForm(email: string)
    requires EmailPatternMatches(email)
    ensures EmailShape(Lower(Strip(email)))
  {
    EmailStrip(email);
    EmailShapeLower(Strip(email));
  }

  /** A lower-case address of the right shape is accepted unchanged. */
  lemma EmailNormalAccepted(v: string)
    requires EmailShape(v) && forall i :: 0 <= i < |v| ==> !IsUpperLetter(v[i])
    ensures ValidateEmail(v) == Ok(v)
  {
    assert ValidateEmail(v) == Ok(Lower(Strip(v)));
    assert Lower(Strip(v)) == v by {
      EmailStripPlain(v);
      LowerUnchanged(v);
    }
  }

  /** A validated address validates to itself. */
  lemma EmailIdempotent(email: string)
    requires ValidateEmail(email).Ok?
    ensures ValidateEmail(ValidateEmail(email).value) == ValidateEmail(email)
  {
    EmailNormalAccepted(ValidateEmail(email).value);
  }

  lemma EmailAcceptsExample()
    ensures ValidateEmail("test@example.com") == Ok("test@example.com")
  {
    var s := "test@example.com";
    assert EmailShapeAt(s, 4, 12);
    EmailNormalAccepted(s);
  }

  lemma EmailRejectsExample()
    ensures RaisesValidation(ValidateEmail("invalid-email"), "email")
  {
    var u := "invalid-email";
    assert forall i :: 0 <= i < |u| ==> u[i] != '@';
    assert !EmailShape(u);
    assert u[|u| - 1] != '\n';
  }

  // ---------------------------------------------------------------- sanitize_text

  /** `[\x00-\x08\x0B\x0C\x0E-\x1F\x7F]`: control characters other than tab, newline and
      carriage return. */
  predicate IsTextControl(c: char) {
    c <= '\U{08}' || c == '\U{0B}' || c == '\U{0C}' || ('\U{0E}' <= c <= '\U{1F}') || c == '\U{7F}'
  }

  /** `sanitize_text`: strip, cut to `maxLength` (Python slicing), drop control characters. */
  function SanitizeText(text: Option<string>, maxLength: int := 1000): (r: string)
    ensures text.None? ==> r == ""
    ensures maxLength >= 0 ==> |r| <= maxLength
    ensures forall i :: 0 <= i < |r| ==> !IsTextControl(r[i])
    ensures text.Some? ==>
      var t := Strip(text.value);
      var cut := if |t| > maxLength then SliceTo(t, maxLength) else t;
      && (forall c :: c in r ==> c in cut)
      && (forall i :: 0 <= i < |cut| && !IsTextControl(cut[i]) ==> cut[i] in r)
      && (forall c :: multiset(r)[c] == if IsTextControl(c) then 0 else multiset(cut)[c])
  {
    if text.None? then ""
    else
      var t := Strip(text.value);
      var cut := if |t| > maxLength then SliceTo(t, maxLength) else t;
      KeepMultiset(cut, IsTextControl);
      Keep(cut, IsTextControl)
  }

  /** The sanitised text is the stripped, cut text with its control characters removed and
      everything else in its order (`Keep` distributes over concatenation). */
  lemma SanitizeTextInOrder(text: string, maxLength: int)
    ensures var t := Strip(text);
      SanitizeText(Some(text), maxLength) == Keep(if |t| > maxLength then SliceTo(t, maxLength) else t, IsTextControl)
  {
  }

  /** Text that is already stripped, short enough and free of control characters is unchanged. */
  lemma SanitizeTextKeepsCleanText(text: string, maxLength: int)
    requires Strip(text) == text && |text| <= maxLength
    requires forall i :: 0 <= i < |text| ==> !IsTextControl(text[i])
    ensures SanitizeText(Some(text), maxLength) == text
  {
    assert forall i :: 0 <= i < |text| ==> !IsTextControl(text[i]);
    assert Keep(text, IsTextControl) == text;
  }

  /** Ordinary text passes unchanged. */
  lemma SanitizeTextPlainExample(text: string)
    requires text == "Hello world!"
    ensures SanitizeText(Some(text)) == text
  {
    StripUnchanged(text);
    SanitizeTextKeepsCleanText(text, 1000);
  }

  // ---------------------------------------------------------------- sanitize_filename

  /** The index of the last `c` in `s`, or -1. */
  function LastIndexOf(s: string, c: char): (r: int)
    ensures -1 <= r < |s|
    ensures r >= 0 ==> s[r] == c
    ensures forall k :: r < k < |s| ==> s[k] != c
  {
    if s == [] then -1
    else if s[|s| - 1] == c then |s| - 1
    else LastIndexOf(s[..|s| - 1], c)
  }

  /** `os.path.basename` (POSIX): everything after the last '/'. */
  function Basename(path: string): (r: string)
    ensures |r| <= |path| && r == path[|path| - |r|..]
    ensures forall i :: 0 <= i < |r| ==> r[i] != '/'
    ensures |r| < |path| ==> path[|path| - |r| - 1] == '/'
  {
    path[LastIndexOf(path, '/') + 1..]
  }

  /** `[<>:"/\\|?*]` */
  predicate IsReservedFilenameChar(c: char) {
    c == '<' || c == '>' || c == ':' || c == '"' || c == '/' || c == '\\' || c == '|' || c == '?' || c == '*'
  }

  /** `[\x00-\x1F\x7F]` */
  predicate IsFilenameControl(c: char) {
    c <= '\U{1F}' || c == '\U{7F}'
  }

  /** Each reserved character becomes '_'; everything else is kept in place. */
  function ReplaceReserved(s: string): (r: string)
    ensures |r| == |s|
    ensures forall i :: 0 <= i < |s| ==> r[i] == if IsReservedFilenameChar(s[i]) then '_' else s[i]
    ensures forall i :: 0 <= i < |r| ==> !IsReservedFilenameChar(r[i])
  {
    seq(|s|, i requires 0 <= i < |s| => if IsReservedFilenameChar(s[i]) then '_' else s[i])
  }

  /** A character that may stay in a file name: not reserved, not a control character. */
  predicate IsSafeFilenameChar(c: char) {
    !IsReservedFilenameChar(c) && !IsFilenameControl(c)
  }

  predicate IsSafeFilename(s: string) {
    forall i :: 0 <= i < |s| ==> IsSafeFilenameChar(s[i])
  }

  /** The cleaning stage of `sanitize_filename`, before the length limit. */
  function CleanFilename(filename: string): (r: string)
    ensures IsSafeFilename(r)
    ensures |r| <= |filename|
    ensures forall c :: multiset(r)[c] ==
                        (if IsFilenameControl(c) then 0 else multiset(ReplaceReserved(Basename(filename)))[c])
  {
    var base := ReplaceReserved(Basename(filename));
    var kept := Keep(base, IsFilenameControl);
    assert forall i :: 0 <= i < |kept| ==> kept[i] in base;
    KeepMultiset(base, IsFilenameControl);
    kept
  }

  /** The control characters are removed in place: the cleaned name is the basename with
      reserved characters replaced, minus its control characters, in their order. */
  lemma CleanFilenameInOrder(filename: string)
    ensures CleanFilename(filename) == Keep(ReplaceReserved(Basename(filename)), IsFilenameControl)
  {
  }

  /** A name without control characters is cleaned to its basename with each reserved
      character replaced, in place, by '_'. */
  lemma CleanFilenameReplacesReserved(filename: string)
    requires forall i :: 0 <= i < |filename| ==> !IsFilenameControl(filename[i])
    ensures CleanFilename(filename) == ReplaceReserved(Basename(filename))
  {
    var b := Basename(filename);
    var base := ReplaceReserved(b);
    forall i | 0 <= i < |base| ensures !IsFilenameControl(base[i]) {
      assert b[i] == filename[|filename| - |b| + i];
    }
  }

  /** `os.path.splitext` (POSIX, no directory part): the extension starts at the last dot,
      unless everything before that dot is dots. */
  function SplitExt(f: string): (r: (string, string))
    ensures r.0 + r.1 == f
    ensures r.1 == [] || (r.1[0] == '.' && forall k :: 0 < k < |r.1| ==> r.1[k] != '.')
  {
    var d := LastIndexOf(f, '.');
    if d > 0 && exists k :: 0 <= k < d && f[k] != '.' then (f[..d], f[d..]) else (f, [])
  }

  const MaxFilenameLength := 255

  /** The length limit as written: the name cut to `255 - len(ext)` with Python slicing. */
  function LimitLengthAsWritten(f: string): string {
    if |f| > MaxFilenameLength then
      var (name, ext) := SplitExt(f);
      SliceTo(name, MaxFilenameLength - |ext|) + ext
    else f
  }

  /** The length limit, with an extension longer than the limit handled by cutting the whole
      name to the limit. */
  function LimitLength(f: string): (r: string)
    ensures |r| <= MaxFilenameLength
    ensures |f| <= MaxFilenameLength ==> r == f
    ensures |f| > MaxFilenameLength && |SplitExt(f).1| <= MaxFilenameLength ==>
      |r| == MaxFilenameLength && r == SplitExt(f).0[..MaxFilenameLength - |SplitExt(f).1|] + SplitExt(f).1
    ensures IsSafeFilename(f) ==> IsSafeFilename(r)
  {
    if |f| > MaxFilenameLength then
      var (name, ext) := SplitExt(f);
      if |ext| <= MaxFilenameLength then
        var r := name[..MaxFilenameLength - |ext|] + ext;
        assert IsSafeFilename(f) ==> IsSafeFilename(r) by {
          if IsSafeFilename(f) {
            assert forall i :: 0 <= i < |name| ==> name[i] == f[i];
            assert forall i :: 0 <= i < |ext| ==> ext[i] == f[|name| + i];
          }
        }
        r
      else f[..MaxFilenameLength]
    else f
  }

  /** `sanitize_filename` as written. */
  function SanitizeFilenameAsWritten(filename: string): string {
    if filename == "" then "" else LimitLengthAsWritten(CleanFilename(filename))
  }

  /** `sanitize_filename`: no directory part, no reserved or control character, at most 255
      characters. */
  function SanitizeFilename(filename: string): (r: string)
    ensures filename == "" ==> r == ""
    ensures |r| <= MaxFilenameLength
    ensures IsSafeFilename(r)
    ensures |CleanFilename(filename)| <= MaxFilenameLength ==> r == CleanFilename(filename)
    ensures var clean := CleanFilename(filename);
      |clean| > MaxFilenameLength && |SplitExt(clean).1| <= MaxFilenameLength ==>
        |r| == MaxFilenameLength && r == SplitExt(clean).0[..MaxFilenameLength - |SplitExt(clean).1|] + SplitExt(clean).1
  {
    if filename == "" then "" else LimitLength(CleanFilename(filename))
  }

  /** A name without '/' that is already safe is its own clean form. */
  lemma CleanFilenameOfSafeName(f: string)
    requires IsSafeFilename(f) && LastIndexOf(f, '/') == -1
    ensures CleanFilename(f) == f
  {
    assert Basename(f) == f;
    assert ReplaceReserved(f) == f;
  }

  /** The discrepancy: an extension longer than 255 characters makes the slice bound negative,
      and the result keeps the whole over-long extension. */
  lemma FilenameAsWrittenExceedsLimit()
    ensures |SanitizeFilenameAsWritten("a." + seq(300, _ => 'x'))| == 301
  {
    var f := "a." + seq(300, _ => 'x');
    assert forall k :: 2 <= k < |f| ==> f[k] == 'x';
    assert f[0] == 'a' && f[1] == '.';
    assert LastIndexOf(f, '/') == -1;
    CleanFilenameOfSafeName(f);
    assert LastIndexOf(f, '.') == 1;
    assert SplitExt(f) == ("a", f[1..]);
  }

  /** The corrected limit keeps the same name to 255 characters. */
  lemma FilenameCorrectedWithinLimit()
    ensures |SanitizeFilename("a." + seq(300, _ => 'x'))| == MaxFilenameLength
  {
    var f := "a." + seq(300, _ => 'x');
    assert forall k :: 2 <= k < |f| ==> f[k] == 'x';
    assert f[0] == 'a' && f[1] == '.';
    assert LastIndexOf(f, '/') == -1;
    CleanFilenameOfSafeName(f);
    assert LastIndexOf(f, '.') == 1;
    assert SplitExt(f) == ("a", f[1..]);
  }

  /** Directory traversal is cut off: whatever directories precede a safe name, only the
      name is left ("../../../etc/passwd" becomes "passwd"). */
  lemma DirectoryPartDropped(dir: string, name: string)
    requires IsSafeFilename(name) && |name| <= MaxFilenameLength
    ensures SanitizeFilename(dir + "/" + name) == name
  {
    var p := dir + "/" + name;
    assert forall i :: 0 <= i < |name| ==> name[i] != '/' by {
      forall i | 0 <= i < |name| ensures name[i] != '/' { assert IsSafeFilenameChar(name[i]); }
    }
    BasenameAfterSlash(dir, name);
    assert ReplaceReserved(name) == name;
    assert Keep(name, IsFilenameControl) == name;
    assert CleanFilename(p) == name;
    assert p != "" by { assert p[|dir|] == '/'; }
  }

  /** Whatever precedes the last '/' is dropped. */
  lemma BasenameAfterSlash(dir: string, name: string)
    requires forall i :: 0 <= i < |name| ==> name[i] != '/'
    ensures Basename(dir + "/" + name) == name
  {
    var p := dir + "/" + name;
    assert p[|dir|] == '/';
    assert forall k :: |dir| < k < |p| ==> p[k] == name[k - |dir| - 1];
    assert LastIndexOf(p, '/') == |dir|;
    assert p[|dir| + 1..] == name;
  }

  /** An ordinary name is kept. */
  lemma FilenamePlainExample()
    ensures SanitizeFilename("test_file.txt") == "test_file.txt"
  {
    var t := "test_file.txt";
    assert LastIndexOf(t, '/') == -1;
    CleanFilenameOfSafeName(t);
  }

  // ---------------------------------------------------------------- escape_markdown

  /** The characters `*_~`\>[](){}#+-=|.!` that Discord markdown gives a meaning. */
  predicate IsMarkdownSpecial(c: char) {
    || c == '*' || c == '_' || c == '~' || c == '`' || c == '\\' || c == '>' || c == '['
    || c == ']' || c == '(' || c == ')' || c == '{' || c == '}' || c == '#' || c == '+'
    || c == '-' || c == '=' || c == '|' || c == '.' || c == '!'
  }

  function CountSpecial(s: string): nat {
    if s == [] then 0 else (if IsMarkdownSpecial(s[0]) then 1 else 0) + CountSpecial(s[1..])
  }

  /** `escape_markdown`: one backslash before each special character. */
  function EscapeMarkdown(text: string): (r: string)
    ensures |r| == |text| + CountSpecial(text)
    ensures text != [] && IsMarkdownSpecial(text[0]) ==> r[..2] == ['\\', text[0]]
    ensures text != [] && !IsMarkdownSpecial(text[0]) ==> r[0] == text[0]
  {
    if text == [] then []
    else if IsMarkdownSpecial(text[0]) then ['\\', text[0]] + EscapeMarkdown(text[1..])
    else [text[0]] + EscapeMarkdown(text[1..])
  }

  /** Removes one backslash before each character. */
  function UnescapeMarkdown(s: string): string
    decreases |s|
  {
    if s == [] then []
    else if s[0] == '\\' && |s| >= 2 then [s[1]] + UnescapeMarkdown(s[2..])
    else [s[0]] + UnescapeMarkdown(s[1..])
  }

  /** Removing the inserted backslashes gives back the original text. */
  lemma {:induction false} EscapeMarkdownRoundTrip(text: string)
    ensures UnescapeMarkdown(EscapeMarkdown(text)) == text
  {
    if text != [] {
      EscapeMarkdownRoundTrip(text[1..]);
      var e := EscapeMarkdown(text);
      if IsMarkdownSpecial(text[0]) {
        assert e[2..] == EscapeMarkdown(text[1..]);
      } else {
        assert e[1..] == EscapeMarkdown(text[1..]);
      }
    }
  }

  /** Escaping works character by character: the escape of a concatenation is the concatenation
      of the escapes, so every special character, wherever it stands, gets its backslash. */
  lemma {:induction false} EscapeMarkdownAppend(a: string, b: string)
    ensures EscapeMarkdown(a + b) == EscapeMarkdown(a) + EscapeMarkdown(b)
    decreases |a|
  {
    if a == [] {
      assert a + b == b;
    } else {
      assert (a + b)[0] == a[0] && (a + b)[1..] == a[1..] + b;
      EscapeMarkdownAppend(a[1..], b);
    }
  }

  /** A single character is escaped by a backslash iff it is special. */
  lemma EscapeMarkdownChar(c: char)
    ensures EscapeMarkdown([c]) == if IsMarkdownSpecial(c) then ['\\', c] else [c]
  {
    assert [c][1..] == [];
  }

  lemma EscapeMarkdownExample()
    ensures EscapeMarkdown("*a*") == "\\*a\\*"
  {
  }

  // ---------------------------------------------------------------- validate_and_sanitize_input

  const XssDetected := "Potential XSS pattern detected in input"
  const SqlDetected := "Potential SQL injection pattern detected in input"
  const CommandDetected := "Potential command injection pattern detected in input"

  /** One of the three detectors flags the input; the SQL detector is the one written in the
      source, with its upper-case keywords. */
  predicate Flagged(input: string) {
    CheckXssPatterns(input) || CheckSqlInjectionPatternsAsWritten(input) || CheckCommandInjectionPatterns(input)
  }

  /** `validate_and_sanitize_input`. The URL validator and sanitiser rest on `urllib` and are
      parameters: `urlError` gives the message of the ValidationError `validate_url` raises, if
      any, and `sanitizeUrl` the rebuilt URL. */
  function ValidateAndSanitizeInput(inputValue: string, urlError: string -> Option<string>,
                                    sanitizeUrl: string -> string, inputType: string := "text",
                                    maxLength: int := 1000, minLength: int := 0): (r: Result<string>)
    ensures CheckXssPatterns(inputValue) ==> r == Err(SecurityError(XssDetected))
    ensures !CheckXssPatterns(inputValue) && CheckSqlInjectionPatternsAsWritten(inputValue) ==>
      r == Err(SecurityError(SqlDetected))
    ensures (!CheckXssPatterns(inputValue) && !CheckSqlInjectionPatternsAsWritten(inputValue) &&
             CheckCommandInjectionPatterns(inputValue)) ==> r == Err(SecurityError(CommandDetected))
    ensures Flagged(inputValue) <==> r.Err? && r.error.SecurityError?
    ensures !Flagged(inputValue) && r.Err? ==> r.error.ValidationError?
    ensures inputType == "text" && r.Ok? ==>
      |r.value| <= maxLength && forall i :: 0 <= i < |r.value| ==> !IsTextControl(r.value[i])
    ensures !Flagged(inputValue) && inputType == "text" ==>
      && (r.Ok? <==> minLength <= |inputValue| <= maxLength)
      && (r.Ok? ==> r.value == SanitizeText(Some(inputValue), maxLength))
      && (r.Err? ==> r == ValidateLength(Some(inputValue), minLength, Some(maxLength), "value"))
    ensures !Flagged(inputValue) && inputType == "url" ==>
      && (inputValue == "" ==> r == Invalid("url is required", "url"))
      && (inputValue != "" ==> (r.Ok? <==> urlError(inputValue).None?))
      && (inputValue != "" && r.Ok? ==> r.value == sanitizeUrl(inputValue))
      && (inputValue != "" && r.Err? ==> r == Invalid(urlError(inputValue).value, "url"))
    ensures !Flagged(inputValue) && inputType == "discord_id" ==> r == ValidateDiscordIdAsWritten(inputValue)
    ensures !Flagged(inputValue) && inputType == "currency" ==> r == ValidateCurrencyCode(inputValue)
    ensures !Flagged(inputValue) && inputType == "email" ==> r == ValidateEmail(inputValue)
    ensures !Flagged(inputValue) && inputType !in {"text", "url", "email", "discord_id", "currency"} ==>
      r == Ok(SanitizeText(Some(inputValue), maxLength))
  {
    if CheckXssPatterns(inputValue) then Err(SecurityError(XssDetected))
    else if CheckSqlInjectionPatternsAsWritten(inputValue) then Err(SecurityError(SqlDetected))
    else if CheckCommandInjectionPatterns(inputValue) then Err(SecurityError(CommandDetected))
    else if inputType == "text" then
      match ValidateLength(Some(inputValue), minLength, Some(maxLength), "value")
      case Ok(v) => Ok(SanitizeText(Some(v), maxLength))
      case Err(e) => Err(e)
    else if inputType == "url" then
      if inputValue == "" then Invalid("url is required", "url")
      else match urlError(inputValue)
        case Some(message) => Invalid(message, "url")
        case None => Ok(sanitizeUrl(inputValue))
    else if inputType == "email" then ValidateEmail(inputValue)
    else if inputType == "discord_id" then ValidateDiscordIdAsWritten(inputValue)
    else if inputType == "currency" then ValidateCurrencyCode(inputValue)
    else Ok(SanitizeText(Some(inputValue), maxLength))
  }
}

/**
 * The client-side signup rules of CompanySignup.js (its Yup `validationSchema`), as
 * predicates on the form values. The login form's password rule is the same
 * predicate (LoginFormValid). Yup's `.email()` format test is not part of this model.
 */
module SignupValidation {
  import opened Wrappers

  /** `\d` in a JavaScript regular expression without the `u` flag. */
  predicate IsDigit(c: char) {
    '0' <= c <= '9'
  }

  /** `[A-Za-z]`. */
  predicate IsLetter(c: char) {
    'A' <= c <= 'Z' || 'a' <= c <= 'z'
  }

  /** `[@$!%*?&]`. */
  predicate IsSpecial(c: char) {
    c in "@$!%*?&"
  }

  /** `[A-Za-z\d@$!%*?&]`. */
  predicate InPasswordAlphabet(c: char) {
    IsLetter(c) || IsDigit(c) || IsSpecial(c)
  }

  /** Yup `string().required()`: a missing value and "" both fail. */
  predicate Required(s: string) {
    s != ""
  }

  /** The regular-expression fragment `\d{n}$`, matched from the start of `s`. */
  predicate MatchDigitsToEnd(s: string, n: nat) {
    if n == 0 then s == [] else s != [] && IsDigit(s[0]) && MatchDigitsToEnd(s[1..], n - 1)
  }

  /** `.matches(/^\d{10}$/).required()`. */
  predicate PhoneValid(s: string) {
    MatchDigitsToEnd(s, 10) && Required(s)
  }

  lemma {:induction false} MatchDigitsToEndMeans(s: string, n: nat)
    ensures MatchDigitsToEnd(s, n) <==> |s| == n && forall i :: 0 <= i < |s| ==> IsDigit(s[i])
  {
    if n > 0 && s != [] {
      MatchDigitsToEndMeans(s[1..], n - 1);
      assert forall i :: 1 <= i < |s| ==> s[i] == s[1..][i - 1];
    }
  }

  /** A phone number passes exactly when it is ten decimal digits. */
  lemma PhoneValidMeans(s: string)
    ensures PhoneValid(s) <==> |s| == 10 && forall i :: 0 <= i < |s| ==> IsDigit(s[i])
  {
    MatchDigitsToEndMeans(s, 10);
  }

  predicate HasLetter(s: string) {
    exists i :: 0 <= i < |s| && IsLetter(s[i])
  }

  predicate HasDigit(s: string) {
    exists i :: 0 <= i < |s| && IsDigit(s[i])
  }

  predicate HasSpecial(s: string) {
    exists i :: 0 <= i < |s| && IsSpecial(s[i])
  }

  /**
   * `/^(?=.*[A-Za-z])(?=.*\d)(?=.*[@$!%*?&])[A-Za-z\d@$!%*?&]{8,}$/`: three lookaheads
   * at the start, then at least eight alphabet characters up to the end.
   */
  predicate PasswordPattern(s: string) {
    && HasLetter(s)
    && HasDigit(s)
    && HasSpecial(s)
    && |s| >= 8
    && forall i :: 0 <= i < |s| ==> InPasswordAlphabet(s[i])
  }

  /** `.min(8).matches(...).required()`. */
  predicate PasswordValid(s: string) {
    |s| >= 8 && PasswordPattern(s) && Required(s)
  }

  /** The `min(8)` and `required` rules add nothing to the pattern. */
  lemma PasswordValidIsPattern(s: string)
    ensures PasswordValid(s) <==> PasswordPattern(s)
  {
  }

  /** The password of the signup → verify → login scenario passes; near misses fail. */
  lemma PasswordExamples()
    ensures PasswordValid("Abcdef1!")
    ensures !PasswordValid("Abcdefgh1")   // no special character
    ensures !PasswordValid("Abc1!")       // too short
    ensures !PasswordValid("Abcdef1!#")   // '#' is outside the alphabet
  {
    var p := "Abcdef1!";
    assert IsLetter(p[0]) && IsDigit(p[6]) && IsSpecial(p[7]);
    var q := "Abcdefgh1";
    assert forall i :: 0 <= i < |q| ==> !IsSpecial(q[i]);
    var r := "Abcdef1!#";
    assert !InPasswordAlphabet(r[8]);
  }

  /** The uploaded logo as the browser's File object describes it. */
  datatype LogoFile = LogoFile(size: int, mimeType: string)

  const MaxLogoBytes: int := 1024 * 1024

  /** `(value) => value && value.size <= 1024 * 1024`. */
  predicate LogoSizeOk(v: Option<LogoFile>) {
    v.Some? && v.value.size <= MaxLogoBytes
  }

  /** `(value) => value && ["image/jpeg", "image/png"].includes(value.type)`. */
  predicate LogoTypeOk(v: Option<LogoFile>) {
    v.Some? && (v.value.mimeType == "image/jpeg" || v.value.mimeType == "image/png")
  }

  /** `Yup.mixed().required().test("fileSize", ...).test("fileType", ...)`. */
  predicate LogoValid(v: Option<LogoFile>) {
    v.Some? && LogoSizeOk(v) && LogoTypeOk(v)
  }

  /** `.required()` adds nothing to the two tests, which already fail on a missing logo. */
  lemma LogoRequiredIsRedundant(v: Option<LogoFile>)
    ensures LogoValid(v) <==> LogoSizeOk(v) && LogoTypeOk(v)
    ensures v.None? ==> !LogoSizeOk(v) && !LogoTypeOk(v)
  {
  }

  /** The size bound is inclusive, and only JPEG and PNG are accepted. */
  lemma LogoExamples()
    ensures LogoValid(Some(LogoFile(1048576, "image/png")))
    ensures LogoValid(Some(LogoFile(0, "image/jpeg")))
    ensures !LogoValid(Some(LogoFile(1048577, "image/png")))   // "File size is too large"
    ensures !LogoValid(Some(LogoFile(1024, "image/gif")))      // "Unsupported file type"
    ensures !LogoValid(Some(LogoFile(1024, "image/jpg")))      // not the registered JPEG type
    ensures !LogoValid(None)                                   // "Company Logo is required"
  {
  }

  datatype SignupForm = SignupForm(
    companyId: string,
    companyName: string,
    service: string,
    email: string,
    phone: string,
    address: string,
    password: string,
    companyLogo: Option<LogoFile>)

  /** The whole signup `validationSchema`. */
  predicate SignupFormValid(f: SignupForm) {
    && Required(f.companyId)
    && Required(f.companyName)
    && Required(f.service)
    && Required(f.email)
    && PhoneValid(f.phone)
    && Required(f.address)
    && PasswordValid(f.password)
    && LogoValid(f.companyLogo)
  }

  /** The login form's schema: a required email and the signup password rule. */
  predicate LoginFormValid(email: string, password: string) {
    Required(email) && PasswordValid(password)
  }

  /** The login form accepts a non-empty email and a password of the signup pattern. */
  lemma LoginFormValidMeans(email: string, password: string)
    ensures LoginFormValid(email, password) <==> email != "" && PasswordPattern(password)
    ensures LoginFormValid("a@x.com", "Abcdef1!") && !LoginFormValid("a@x.com", "Abcdefgh1")
  {
    PasswordExamples();
  }
}

/**
  The user REST handlers' own logic: the password-strength rule registered with the
  struct validator, the validation of a sign-up body tag by tag, the mapping of the sign-up
  and update bodies to a user, and the sign-up handler's answer. JSON decoding, the
  e-mail syntax check and the user service are oracles.
 */
module UserHandler {
  import opened Wrappers
  import Users

  const SpecialChars: string := "@$!%*?&#^"

  predicate IsLower(c: char) { 'a' <= c <= 'z' }
  predicate IsUpper(c: char) { 'A' <= c <= 'Z' }
  predicate IsDigitChar(c: char) { '0' <= c <= '9' }
  predicate IsSpecial(c: char) { c in SpecialChars }

  /** The bytes of one character in UTF-8. */
  function Utf8Len(c: char): (n: nat)
    ensures 1 <= n <= 4
    ensures c as int < 0x80 <==> n == 1
  {
    if c as int < 0x80 then 1
    else if c as int < 0x800 then 2
    else if c as int < 0x10000 then 3
    else 4
  }

  /** `len(password)`: the length in bytes of the UTF-8 encoding. */
  function ByteLength(s: string): (n: nat)
    decreases |s|
  {
    if |s| == 0 then 0 else ByteLength(s[..|s| - 1]) + Utf8Len(s[|s| - 1])
  }

  /** Every character takes at least one byte, so a long enough text is long enough in bytes. */
  lemma {:induction false} ByteLengthBounds(s: string)
    ensures |s| <= ByteLength(s) <= 4 * |s|
    decreases |s|
  {
    if |s| > 0 {
      ByteLengthBounds(s[..|s| - 1]);
    }
  }

  ghost predicate HasLower(p: string) { exists i :: 0 <= i < |p| && IsLower(p[i]) }
  ghost predicate HasUpper(p: string) { exists i :: 0 <= i < |p| && IsUpper(p[i]) }
  ghost predicate HasDigit(p: string) { exists i :: 0 <= i < |p| && IsDigitChar(p[i]) }
  ghost predicate HasSpecialChar(p: string) { exists i :: 0 <= i < |p| && IsSpecial(p[i]) }

  /** The strength rule: eight bytes or more, with a lower-case, an upper-case, a digit and a special. */
  ghost predicate StrongPassword(p: string) {
    ByteLength(p) >= 8 && HasUpper(p) && HasLower(p) && HasDigit(p) && HasSpecialChar(p)
  }

  /** `PasswordValidation`: one pass over the characters setting the four flags. */
  method PasswordValidation(password: string) returns (ok: bool)
    ensures ok <==> StrongPassword(password)
  {
    var hasUpper, hasLower, hasDigit, hasSpecial := false, false, false, false;
    var i := 0;
    while i < |password|
      invariant 0 <= i <= |password|
      invariant hasLower <==> HasLower(password[..i])
      invariant hasUpper <==> HasUpper(password[..i])
      invariant hasDigit <==> HasDigit(password[..i])
      invariant hasSpecial <==> HasSpecialChar(password[..i])
    {
      var ch := password[i];
      assert password[..i + 1] == password[..i] + [ch];
      FlagsStep(password[..i], ch);
      if IsLower(ch) {
        hasLower := true;
      } else if IsUpper(ch) {
        hasUpper := true;
      } else if IsDigitChar(ch) {
        hasDigit := true;
      } else if ch in SpecialChars {
        hasSpecial := true;
      }
      i := i + 1;
    }
    assert password[..i] == password;
    ok := ByteLength(password) >= 8 && hasUpper && hasLower && hasDigit && hasSpecial;
  }

  /** Appending a character sets exactly the flag of its class, if it has one. */
  lemma FlagsStep(p: string, c: char)
    ensures HasLower(p + [c]) <==> HasLower(p) || IsLower(c)
    ensures HasUpper(p + [c]) <==> HasUpper(p) || IsUpper(c)
    ensures HasDigit(p + [c]) <==> HasDigit(p) || IsDigitChar(c)
    ensures HasSpecialChar(p + [c]) <==> HasSpecialChar(p) || IsSpecial(c)
  {
    var q := p + [c];
    assert q[|p|] == c;
    assert forall i :: 0 <= i < |p| ==> q[i] == p[i];
  }

  /** A character in none of the four classes sets no flag but still adds its bytes. */
  lemma OtherCharacterOnlyLengthens(p: string, c: char)
    requires !IsLower(c) && !IsUpper(c) && !IsDigitChar(c) && !IsSpecial(c)
    ensures HasLower(p + [c]) == HasLower(p) && HasUpper(p + [c]) == HasUpper(p)
    ensures HasDigit(p + [c]) == HasDigit(p) && HasSpecialChar(p + [c]) == HasSpecialChar(p)
    ensures ByteLength(p + [c]) == ByteLength(p) + Utf8Len(c)
  {
    FlagsStep(p, c);
    assert (p + [c])[..|p|] == p;
  }

  // ---------------------------------------------------------------------------
  // Bodies

  datatype SignupBody = SignupBody(
    userName: string, firstName: string, lastName: string, password: string, confirmPassword: string,
    mobile: string, email: string)

  datatype UpdateBody = UpdateBody(
    userName: string, firstName: string, lastName: string, password: string, mobile: string, email: string)

  /** `UserSignupBody.toUser`: user name, names, password and e-mail carry over; nothing else. */
  function SignupToUser(b: SignupBody): (u: Users.User)
    ensures u.userName == b.userName && u.firstName == b.firstName && u.lastName == b.lastName
    ensures u.password == b.password && u.email == b.email
    ensures u.mobile == "" && u.id == "" && u.salt == "" && u.status == "" && u.role == ""
  {
    Users.Named(b.userName).(firstName := b.firstName, lastName := b.lastName, password := b.password, email := b.email)
  }

  /** The mobile number and the confirmation never reach the user. */
  lemma SignupIgnoresMobile(b: SignupBody, mobile: string, confirm: string)
    ensures SignupToUser(b.(mobile := mobile, confirmPassword := confirm)) == SignupToUser(b)
  {
  }

  /** `UserUpdateBody.toUser`: the user name always, every other field only when given. */
  function UpdateToUser(b: UpdateBody): (u: Users.User)
    ensures u.userName == b.userName
    ensures u.firstName == b.firstName && u.lastName == b.lastName && u.password == b.password
    ensures u.mobile == b.mobile && u.email == b.email
    ensures u.id == "" && u.salt == "" && u.status == "" && u.role == ""
  {
    var u := Users.Named(b.userName);
    var u := if b.firstName != "" then u.(firstName := b.firstName) else u;
    var u := if b.lastName != "" then u.(lastName := b.lastName) else u;
    var u := if b.password != "" then u.(password := b.password) else u;
    var u := if b.mobile != "" then u.(mobile := b.mobile) else u;
    if b.email != "" then u.(email := b.email) else u
  }

  // ---------------------------------------------------------------------------
  // Struct validation of the sign-up body

  /** The validator's numeric syntax: an optional sign, digits, and optional decimals. */
  predicate IsNumeric(s: string) {
    var body := if |s| > 0 && (s[0] == '-' || s[0] == '+') then s[1..] else s;
    exists k :: 0 < k <= |body| && AllDigits(body[..k])
      && (k == |body| || (body[k] == '.' && k + 1 < |body| && AllDigits(body[k + 1..])))
  }

  predicate AllDigits(s: string) {
    forall i :: 0 <= i < |s| ==> IsDigitChar(s[i])
  }

  /** The failing tag of one field, if any: the validator reports the first per field. */
  datatype FieldError = FieldError(field: string, tag: string)

  function Required(v: string): Option<string> {
    if v == "" then Some("required") else None
  }

  /** `min=3,max=30` on a string counts characters. */
  function Between(v: string, lo: nat, hi: nat): Option<string> {
    if |v| < lo then Some("min") else if |v| > hi then Some("max") else None
  }

  function Then(a: Option<string>, b: Option<string>): Option<string> {
    if a.Some? then a else b
  }

  /** What the tags of `UserSignupBody` ask of a body, field by field. */
  ghost predicate ValidSignup(b: SignupBody, isEmail: string -> bool) {
    && 3 <= |b.userName| <= 30
    && (b.firstName == "" || 3 <= |b.firstName| <= 30)
    && (b.lastName == "" || 3 <= |b.lastName| <= 30)
    && StrongPassword(b.password) && 8 <= |b.password| <= 30
    && b.confirmPassword == b.password
    && (b.mobile == "" || (|b.mobile| == 11 && IsNumeric(b.mobile)))
    && (b.email == "" || isEmail(b.email))
  }

  /**
    The tags of each field of `UserSignupBody`, in declaration order: at most one error
    per field, and none exactly when the body meets every tag.
   */
  ghost function FieldErrors(b: SignupBody, isEmail: string -> bool): (r: seq<FieldError>)
    ensures |r| == 0 <==> ValidSignup(b, isEmail)
    ensures |r| <= 7
  {
    ChecksPass(b, isEmail);
    Failing(Checks(b, isEmail))
  }

  /** Each field with the first of its tags that fails, if any. */
  ghost function Checks(b: SignupBody, isEmail: string -> bool): seq<(string, Option<string>)> {
    [
      ("UserName", Then(Required(b.userName), Between(b.userName, 3, 30))),
      ("FirstName", if b.firstName == "" then None else Between(b.firstName, 3, 30)),
      ("LastName", if b.lastName == "" then None else Between(b.lastName, 3, 30)),
      ("Password", Then(Required(b.password),
                   Then(if StrongPassword(b.password) then None else Some("passwordStrength"),
                        Between(b.password, 8, 30)))),
      ("ConfirmPassword", Then(Required(b.confirmPassword),
                          if b.confirmPassword == b.password then None else Some("eqfield"))),
      ("Mobile", if b.mobile == "" then None
                 else if |b.mobile| != 11 then Some("len")
                 else if !IsNumeric(b.mobile) then Some("numeric") else None),
      ("Email", if b.email == "" || isEmail(b.email) then None else Some("email"))
    ]
  }

  lemma ChecksPass(b: SignupBody, isEmail: string -> bool)
    ensures |Checks(b, isEmail)| == 7
    ensures (forall i :: 0 <= i < |Checks(b, isEmail)| ==> Checks(b, isEmail)[i].1.None?) <==> ValidSignup(b, isEmail)
  {
    var checks := Checks(b, isEmail);
    assert (forall i :: 0 <= i < |checks| ==> checks[i].1.None?)
           <==> (checks[0].1.None? && checks[1].1.None? && checks[2].1.None? && checks[3].1.None?
                 && checks[4].1.None? && checks[5].1.None? && checks[6].1.None?);
  }

  function Failing(checks: seq<(string, Option<string>)>): (r: seq<FieldError>)
    ensures |r| == 0 <==> forall i :: 0 <= i < |checks| ==> checks[i].1.None?
    ensures |r| <= |checks|
    decreases |checks|
  {
    if |checks| == 0 then []
    else
      var rest := Failing(checks[1..]);
      assert forall i :: 1 <= i < |checks| ==> checks[i] == checks[1..][i - 1];
      if checks[0].1.Some? then [FieldError(checks[0].0, checks[0].1.value)] + rest else rest
  }

  /** A body that passes validation has a well-formed user name and a confirmed strong password. */
  lemma ValidBodyShape(b: SignupBody, isEmail: string -> bool)
    requires |FieldErrors(b, isEmail)| == 0
    ensures 3 <= |b.userName| <= 30
    ensures StrongPassword(b.password) && 8 <= |b.password| <= 30 && b.confirmPassword == b.password
    ensures b.mobile == "" || (|b.mobile| == 11 && IsNumeric(b.mobile))
    ensures b.email == "" || isEmail(b.email)
  {
    ChecksPass(b, isEmail);
  }

  function Message(e: FieldError): string {
    "Field '" + e.field + "' failed validation: " + e.tag
  }

  // ---------------------------------------------------------------------------
  // AddUserHandler

  /** What decoding the request body gave. */
  datatype Decoded = BadSyntax | BadType(field: string) | BadBody | Body(body: SignupBody)

  /** The handler's answer, and the user handed to `AddUser`, if it was called. */
  datatype Response = Response(code: int, message: string, errors: seq<string>, added: Option<Users.User>)

  /**
    `AddUserHandler`: a body that does not decode or does not validate is a 400 and
    `AddUser` is not called; otherwise the body's user is added, 201 on success and 500
    with the service's error otherwise.
   */
  ghost function AddUserHandler(d: Decoded, isEmail: string -> bool, addUser: Users.User -> Option<string>): (r: Response)
    ensures r.code == 400 <==> r.added.None?
    ensures r.added.Some? <==> d.Body? && |FieldErrors(d.body, isEmail)| == 0
    ensures r.added.Some? ==> r.added.value == SignupToUser(d.body)
    ensures r.code == 201 <==> r.added.Some? && addUser(r.added.value).None?
  {
    match d
    case BadSyntax => Response(400, "Request body contains badly-formed JSON", [], None)
    case BadType(f) => Response(400, "Request body contains an invalid value for the " + f + " field", [], None)
    case BadBody => Response(400, "Invalid request body", [], None)
    case Body(b) =>
      var errs := FieldErrors(b, isEmail);
      if |errs| > 0 then Response(400, "Validation failed", seq(|errs|, i requires 0 <= i < |errs| => Message(errs[i])), None)
      else
        var u := SignupToUser(b);
        match addUser(u)
        case Some(e) => Response(500, "Cannot add user right now: " + e, [], Some(u))
        case None => Response(201, "created", [], Some(u))
  }

  /** A user reaching `AddUser` carries a strong, confirmed password and no mobile number. */
  lemma AddedUsersAreValid(d: Decoded, isEmail: string -> bool, addUser: Users.User -> Option<string>)
    requires AddUserHandler(d, isEmail, addUser).added.Some?
    ensures var u := AddUserHandler(d, isEmail, addUser).added.value;
      StrongPassword(u.password) && 3 <= |u.userName| <= 30 && u.mobile == ""
  {
    ValidBodyShape(d.body, isEmail);
  }
}

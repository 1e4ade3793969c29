/**
 * The credential routes `POST /api/auth/sign-up` and `POST /api/auth/sign-in`
 * (src/app/api/auth/sign-up/route.ts, src/app/api/auth/sign-in/route.ts):
 * the ordered checks of the request body, the email and password patterns,
 * the session duration, the mapping of the authentication library's errors
 * onto AUTH_xxx codes and HTTP statuses, the reported role and the rewrite of
 * the library's Set-Cookie headers.
 *
 * The library call and the route's own database calls after it are not
 * modelled one by one; their combined result is a parameter (`Outcome`).
 * Sign-up as written cannot succeed (`SignUpAsWritten`); `SignUp` is the
 * route as evidently intended, with the Client row of `SignUpClientRows`.
 */
module Auth {
  import opened Text
  import opened JsonValue
  import Entities
  import Numbering
  import Cookie

  datatype ErrorCode = Auth001 | Auth002 | Auth003 | Auth004 | Auth007 | Auth009 | Auth013

  /** The code as it appears in the response body. */
  function CodeName(c: ErrorCode): string {
    match c
    case Auth001 => "AUTH_001"
    case Auth002 => "AUTH_002"
    case Auth003 => "AUTH_003"
    case Auth004 => "AUTH_004"
    case Auth007 => "AUTH_007"
    case Auth009 => "AUTH_009"
    case Auth013 => "AUTH_013"
  }

  /** `ERROR_STATUS`: input errors are 400, bad credentials 401, a disabled account 403, a taken address 409. */
  function ErrorStatus(c: ErrorCode): (s: int)
    ensures 400 <= s <= 500
    ensures s == 500 <==> c == Auth013
  {
    match c
    case Auth001 => 400
    case Auth002 => 400
    case Auth003 => 400
    case Auth004 => 401
    case Auth007 => 403
    case Auth009 => 409
    case Auth013 => 500
  }

  /** `ERROR_MESSAGES` (the two routes agree on the codes they share). */
  function ErrorMessage(c: ErrorCode): string {
    match c
    case Auth001 => "有効なメールアドレスを入力してください"
    case Auth002 => "パスワードは12文字以上で、英大文字・小文字・数字・記号を含む必要があります"
    case Auth003 => "必須項目を入力してください"
    case Auth004 => "メールアドレスまたはパスワードが正しくありません"
    case Auth007 => "このアカウントは無効化されています"
    case Auth009 => "このメールアドレスは既に登録されています"
    case Auth013 => "サーバーエラーが発生しました。しばらく待ってから再度お試しください"
  }

  /** The message of the one rejection that is not built by `errorResponse`. */
  const NameTooLongMessage := "氏名は100文字以内で入力してください"

  datatype Response =
    | Failure(code: ErrorCode, status: int, message: string)
    | Success(status: int, token: Option<string>, role: string, sessionSeconds: int, cookies: seq<string>)

  /** `errorResponse(code, statusOverride)`: the override when given, the table entry otherwise. */
  function ErrorReply(c: ErrorCode, statusOverride: Option<int>): Response {
    Failure(c, if statusOverride.Some? then statusOverride.value else ErrorStatus(c), ErrorMessage(c))
  }

  // ---------------------------------------------------------------------
  // EMAIL_PATTERN = /^[^\s@]+@[^\s@]+\.[^\s@]+$/

  /** `[^\s@]` */
  predicate EmailChar(c: char) {
    !IsSpace(c) && c != '@'
  }

  predicate EmailChars(s: string) {
    forall k | 0 <= k < |s| :: EmailChar(s[k])
  }

  /** The pattern as written: three non-empty runs of `[^\s@]`, the first two separated by `@`, the last two by `.`. */
  predicate EmailPattern(s: string) {
    exists i, j | 0 < i && i + 1 < j && j + 1 < |s| ::
      s[i] == '@' && s[j] == '.' && EmailChars(s[..i]) && EmailChars(s[i + 1..j]) && EmailChars(s[j + 1..])
  }

  /** The same language described globally: no white space, exactly one `@`, not first, and a `.` strictly inside the part after it. */
  predicate EmailShape(s: string) {
    && (forall k | 0 <= k < |s| :: !IsSpace(s[k]))
    && exists i | 0 < i < |s| ::
      && s[i] == '@'
      && (forall k | 0 <= k < |s| && k != i :: s[k] != '@')
      && (exists j | i + 1 < j < |s| - 1 :: s[j] == '.')
  }

  lemma {:induction false} EmailPatternToShape(s: string, i: int, j: int)
    requires 0 < i && i + 1 < j && j + 1 < |s|
    requires s[i] == '@' && s[j] == '.' && EmailChars(s[..i]) && EmailChars(s[i + 1..j]) && EmailChars(s[j + 1..])
    ensures EmailShape(s)
  {
    forall k | 0 <= k < |s| && k != i && k != j ensures EmailChar(s[k]) {
      if k < i {
        assert s[..i][k] == s[k];
      } else if k < j {
        assert s[i + 1..j][k - i - 1] == s[k];
      } else {
        assert s[j + 1..][k - j - 1] == s[k];
      }
    }
    assert forall k | 0 <= k < |s| :: !IsSpace(s[k]);
    assert forall k | 0 <= k < |s| && k != i :: s[k] != '@';
  }

  lemma {:induction false} EmailShapeToPattern(s: string, i: int, j: int)
    requires forall k | 0 <= k < |s| :: !IsSpace(s[k])
    requires 0 < i < |s| && s[i] == '@' && forall k | 0 <= k < |s| && k != i :: s[k] != '@'
    requires i + 1 < j < |s| - 1 && s[j] == '.'
    ensures EmailPattern(s)
  {
    forall k | 0 <= k < i ensures EmailChar(s[..i][k]) {
      assert s[..i][k] == s[k];
    }
    var host, tail := s[i + 1..j], s[j + 1..];
    forall k | 0 <= k < |host| ensures EmailChar(host[k]) {
      assert host[k] == s[k + i + 1];
    }
    forall k | 0 <= k < |tail| ensures EmailChar(tail[k]) {
      assert tail[k] == s[k + j + 1];
    }
  }

  lemma {:induction false} EmailPatternShape(s: string)
    ensures EmailPattern(s) <==> EmailShape(s)
  {
    if EmailPattern(s) {
      var i, j :| 0 < i && i + 1 < j && j + 1 < |s| &&
        s[i] == '@' && s[j] == '.' && EmailChars(s[..i]) && EmailChars(s[i + 1..j]) && EmailChars(s[j + 1..]);
      EmailPatternToShape(s, i, j);
    }
    if EmailShape(s) {
      var i :| 0 < i < |s| && s[i] == '@' && (forall k | 0 <= k < |s| && k != i :: s[k] != '@') &&
        exists j | i + 1 < j < |s| - 1 :: s[j] == '.';
      var j :| i + 1 < j < |s| - 1 && s[j] == '.';
      EmailShapeToPattern(s, i, j);
    }
  }

  // ---------------------------------------------------------------------
  // PASSWORD_PATTERN = /^(?=.*[a-z])(?=.*[A-Z])(?=.*\d)(?=.*[^A-Za-z0-9]).{12,}$/
  // Without the `u` flag `.` and the classes match UTF-16 code units; a code
  // point above U+FFFF is two units, neither of them a letter or a digit.

  /** What `.` does not match without the `s` flag. */
  predicate IsLineTerminator(c: char) {
    c == '\n' || c == '\r' || c == '\U{2028}' || c == '\U{2029}'
  }

  datatype CharClass = Lower | Upper | Digit | Symbol

  predicate InClass(k: CharClass, c: char) {
    match k
    case Lower => 'a' <= c <= 'z'
    case Upper => 'A' <= c <= 'Z'
    case Digit => IsDigit(c)
    case Symbol => !('a' <= c <= 'z' || 'A' <= c <= 'Z' || IsDigit(c))
  }

  /** `(?=.*[k])` at the start: a character of the class is reached through characters `.` matches. */
  predicate Lookahead(s: string, k: CharClass) {
    exists p | 0 <= p < |s| :: InClass(k, s[p]) && forall m | 0 <= m < p :: !IsLineTerminator(s[m])
  }

  /** The pattern as written: the four lookaheads, then `.{12,}` up to the end. */
  predicate PasswordPattern(s: string) {
    && Lookahead(s, Lower) && Lookahead(s, Upper) && Lookahead(s, Digit) && Lookahead(s, Symbol)
    && (forall m | 0 <= m < |s| :: !IsLineTerminator(s[m]))
    && Utf16Length(s) >= 12
  }

  predicate Contains(s: string, k: CharClass) {
    exists p | 0 <= p < |s| :: InClass(k, s[p])
  }

  lemma {:induction false} LookaheadContains(s: string, k: CharClass)
    requires forall m | 0 <= m < |s| :: !IsLineTerminator(s[m])
    ensures Lookahead(s, k) <==> Contains(s, k)
  {
    if Contains(s, k) {
      var p :| 0 <= p < |s| && InClass(k, s[p]);
      assert forall m | 0 <= m < p :: !IsLineTerminator(s[m]);
    }
  }

  /**
   * A password passes exactly when it is at least 12 UTF-16 units long, has
   * no line terminator, and contains a lower-case letter, an upper-case
   * letter, a digit and a character that is none of these.
   */
  lemma {:induction false} PasswordRule(s: string)
    ensures PasswordPattern(s) <==>
      && Utf16Length(s) >= 12
      && (forall m | 0 <= m < |s| :: !IsLineTerminator(s[m]))
      && Contains(s, Lower) && Contains(s, Upper) && Contains(s, Digit) && Contains(s, Symbol)
  {
    if forall m | 0 <= m < |s| :: !IsLineTerminator(s[m]) {
      LookaheadContains(s, Lower);
      LookaheadContains(s, Upper);
      LookaheadContains(s, Digit);
      LookaheadContains(s, Symbol);
    }
  }

  // ---------------------------------------------------------------------
  // The checks of the request body.

  /** What a body that passed the checks supplies to the library. */
  datatype Credentials = Credentials(email: string, password: string, persistent: bool)

  datatype Checked<T> = Rejected(code: ErrorCode, message: string) | Accepted(value: T)

  /** `!parsedBody || typeof parsedBody !== "object"` fails only for objects and arrays. */
  predicate IsObjectBody(v: Json) {
    v.JObject? || v.JArray?
  }

  /**
   * The checks both routes make, in their order: email present and not
   * blank, normalised email matching the pattern, password a non-empty
   * string, password strength (sign-up only), `rememberMe` absent or a
   * boolean.
   */
  function CheckCredentials(p: Json, checkStrength: bool): Checked<Credentials> {
    var email := Field(p, "email");
    var password := Field(p, "password");
    var rememberMe := Field(p, "rememberMe");
    if !IsString(email) || IsBlank(Str(email)) then Rejected(Auth003, ErrorMessage(Auth003))
    else if !EmailPattern(NormalizeEmail(Str(email))) then Rejected(Auth001, ErrorMessage(Auth001))
    else if !IsString(password) || Str(password) == [] then Rejected(Auth003, ErrorMessage(Auth003))
    else if checkStrength && !PasswordPattern(Str(password)) then Rejected(Auth002, ErrorMessage(Auth002))
    else if rememberMe.Some? && !rememberMe.value.JBool? then Rejected(Auth003, ErrorMessage(Auth003))
    else Accepted(Credentials(NormalizeEmail(Str(email)), Str(password), rememberMe == Some(JBool(true))))
  }

  /** The sign-up checks; `None` is a body that is not JSON. The accepted value is the trimmed name and the credentials. */
  function ValidateSignUp(body: Option<Json>): Checked<(string, Credentials)> {
    if body.None? || !IsObjectBody(body.value) then Rejected(Auth003, ErrorMessage(Auth003))
    else
      var name := Field(body.value, "name");
      if !IsString(name) || IsBlank(Str(name)) then Rejected(Auth003, ErrorMessage(Auth003))
      else if Utf16Length(Trim(Str(name))) > 100 then Rejected(Auth003, NameTooLongMessage)
      else match CheckCredentials(body.value, true)
        case Rejected(c, m) => Rejected(c, m)
        case Accepted(creds) => Accepted((Trim(Str(name)), creds))
  }

  /** The sign-in checks: no name, no strength check. */
  function ValidateSignIn(body: Option<Json>): Checked<Credentials> {
    if body.None? || !IsObjectBody(body.value) then Rejected(Auth003, ErrorMessage(Auth003))
    else CheckCredentials(body.value, false)
  }

  /** Every field check of sign-up, stated on its own. */
  predicate SignUpBodyValid(body: Option<Json>) {
    && body.Some? && IsObjectBody(body.value)
    && var p := body.value;
    && IsString(Field(p, "name")) && !IsBlank(Str(Field(p, "name")))
    && Utf16Length(Trim(Str(Field(p, "name")))) <= 100
    && IsString(Field(p, "email")) && EmailShape(NormalizeEmail(Str(Field(p, "email"))))
    && IsString(Field(p, "password")) && PasswordPattern(Str(Field(p, "password")))
    && (Field(p, "rememberMe").None? || Field(p, "rememberMe").value.JBool?)
  }

  /**
   * Sign-up accepts exactly the bodies that pass every check, and then hands
   * on the trimmed name, the trimmed lower-cased address and the password
   * unchanged; every rejection is a 400-class AUTH_001, AUTH_002 or AUTH_003.
   */
  lemma {:induction false} SignUpAcceptance(body: Option<Json>)
    ensures ValidateSignUp(body).Accepted? <==> SignUpBodyValid(body)
    ensures ValidateSignUp(body).Accepted? ==>
      var p := body.value;
      && ValidateSignUp(body).value.0 == Trim(Str(Field(p, "name")))
      && ValidateSignUp(body).value.1.email == NormalizeEmail(Str(Field(p, "email")))
      && ValidateSignUp(body).value.1.password == Str(Field(p, "password"))
    ensures ValidateSignUp(body).Rejected? ==>
      ValidateSignUp(body).code in {Auth001, Auth002, Auth003} && ErrorStatus(ValidateSignUp(body).code) == 400
  {
    if body.Some? && IsObjectBody(body.value) {
      var p := body.value;
      if IsString(Field(p, "email")) {
        var e := Str(Field(p, "email"));
        EmailPatternShape(NormalizeEmail(e));
        if EmailShape(NormalizeEmail(e)) {
          assert NormalizeEmail(e) != [];
          assert Trim(e) != [];
        }
      }
    }
  }

  /** The name checks come first: a present, non-blank name of more than 100 UTF-16 units is refused with its own message. */
  lemma {:induction false} SignUpNameTooLong(body: Option<Json>)
    ensures ValidateSignUp(body).Rejected? && ValidateSignUp(body).message == NameTooLongMessage <==>
      && body.Some? && IsObjectBody(body.value)
      && IsString(Field(body.value, "name")) && !IsBlank(Str(Field(body.value, "name")))
      && Utf16Length(Trim(Str(Field(body.value, "name")))) > 100
  {
  }

  /** AUTH_001 is given only when the body and the name passed and the address is a non-blank string whose normalised form fails the pattern. */
  lemma {:induction false} SignUpEmailRejection(body: Option<Json>)
    ensures ValidateSignUp(body) == Rejected(Auth001, ErrorMessage(Auth001)) <==>
      && body.Some? && IsObjectBody(body.value)
      && IsString(Field(body.value, "name")) && !IsBlank(Str(Field(body.value, "name")))
      && Utf16Length(Trim(Str(Field(body.value, "name")))) <= 100
      && IsString(Field(body.value, "email")) && !IsBlank(Str(Field(body.value, "email")))
      && !EmailPattern(NormalizeEmail(Str(Field(body.value, "email"))))
  {
  }

  /** AUTH_002 is given only when everything before it passed and the password is a non-empty string failing the pattern. */
  lemma {:induction false} SignUpPasswordRejection(body: Option<Json>)
    ensures ValidateSignUp(body) == Rejected(Auth002, ErrorMessage(Auth002)) <==>
      && body.Some? && IsObjectBody(body.value)
      && IsString(Field(body.value, "name")) && !IsBlank(Str(Field(body.value, "name")))
      && Utf16Length(Trim(Str(Field(body.value, "name")))) <= 100
      && IsString(Field(body.value, "email")) && EmailPattern(NormalizeEmail(Str(Field(body.value, "email"))))
      && IsString(Field(body.value, "password")) && Str(Field(body.value, "password")) != []
      && !PasswordPattern(Str(Field(body.value, "password")))
  {
    if body.Some? && IsObjectBody(body.value) && IsString(Field(body.value, "email")) {
      var e := Str(Field(body.value, "email"));
      if EmailPattern(NormalizeEmail(e)) {
        EmailPatternShape(NormalizeEmail(e));
        assert NormalizeEmail(e) != [];
      }
    }
  }

  /**
   * Sign-in makes the same credential checks as sign-up except the strength
   * check: the two differ only where sign-up refuses a weak password with
   * AUTH_002, and whatever sign-up accepts sign-in accepts alike.
   */
  lemma {:induction false} SignInSkipsStrength(p: Json)
    ensures CheckCredentials(p, true) != CheckCredentials(p, false) ==>
      && CheckCredentials(p, true) == Rejected(Auth002, ErrorMessage(Auth002))
      && IsString(Field(p, "password")) && !PasswordPattern(Str(Field(p, "password")))
    ensures CheckCredentials(p, true).Accepted? ==> CheckCredentials(p, false) == CheckCredentials(p, true)
  {
  }

  /** A body sign-up accepts, sign-in accepts with the same credentials. */
  lemma {:induction false} SignUpBodySignsIn(body: Option<Json>)
    requires ValidateSignUp(body).Accepted?
    ensures ValidateSignIn(body) == Accepted(ValidateSignUp(body).value.1)
  {
    SignInSkipsStrength(body.value);
  }

  /** An accepted address is normalised: it trims and lower-cases to itself and has no white space and no upper-case ASCII letter. */
  lemma {:induction false} AcceptedEmailNormalised(p: Json, checkStrength: bool)
    requires CheckCredentials(p, checkStrength).Accepted?
    ensures var e := CheckCredentials(p, checkStrength).value.email;
      && NormalizeEmail(e) == e
      && (forall k | 0 <= k < |e| :: !IsSpace(e[k]) && !('A' <= e[k] <= 'Z'))
  {
    var raw := Str(Field(p, "email"));
    var e := NormalizeEmail(raw);
    NormalizeEmailIdempotent(raw);
    ToLowerNoUpper(Trim(raw));
    EmailPatternShape(e);
  }

  // ---------------------------------------------------------------------
  // Session duration.

  /** `(persistentLogin ? 90 : 30) * 24 * 60 * 60` */
  function SessionSeconds(persistent: bool): int {
    (if persistent then 90 else 30) * 24 * 60 * 60
  }

  /** An accepted body gets a 90-day session (7,776,000 s) exactly when `rememberMe` is `true`, and a 30-day one (2,592,000 s) otherwise. */
  lemma {:induction false} SessionDuration(p: Json, checkStrength: bool)
    requires CheckCredentials(p, checkStrength).Accepted?
    ensures var s := SessionSeconds(CheckCredentials(p, checkStrength).value.persistent);
      && (s == 7776000 <==> Field(p, "rememberMe") == Some(JBool(true)))
      && (s == 2592000 <==> Field(p, "rememberMe") != Some(JBool(true)))
  {
  }

  // ---------------------------------------------------------------------
  // What the library answered.

  /** A better-auth `APIError`: its `body.code`, if any, and its HTTP status. */
  datatype ApiError = ApiError(code: Option<string>, statusCode: int)

  datatype Outcome =
    /**
     * The library call returned its token and headers, and the route's own
     * database calls after it completed; `storedRole` is what the role query
     * read back.
     */
    | Signed(token: Option<string>, storedRole: Option<Option<string>>, headers: seq<(string, string)>)
    /** The library threw an `APIError`. */
    | LibraryError(error: ApiError)
    /** Something else threw: one of the route's own database calls, for instance. */
    | OtherError

  /** `apiErrorCodeMap` of sign-up, own keys only. */
  function SignUpApiCode(code: string): Option<(ErrorCode, int)> {
    if code == "USER_ALREADY_EXISTS" || code == "USER_ALREADY_EXISTS_USE_ANOTHER_EMAIL" then Some((Auth009, 409))
    else if code == "PASSWORD_TOO_SHORT" || code == "PASSWORD_TOO_LONG" then Some((Auth002, 400))
    else None
  }

  /** `apiErrorCodeMap` of sign-in, own keys only. */
  function SignInApiCode(code: string): Option<(ErrorCode, int)> {
    if code == "INVALID_EMAIL_OR_PASSWORD" || code == "CREDENTIAL_ACCOUNT_NOT_FOUND" || code == "ACCOUNT_NOT_FOUND" then Some((Auth004, 401))
    else if code == "EMAIL_NOT_VERIFIED" then Some((Auth007, 403))
    else None
  }

  /** The `catch` block of sign-up; `None` is an error that is not an `APIError`. */
  function SignUpFailure(e: Option<ApiError>): Response {
    if e.Some? && e.value.code.Some? && SignUpApiCode(e.value.code.value).Some? then
      var m := SignUpApiCode(e.value.code.value).value;
      ErrorReply(m.0, Some(m.1))
    else if e.Some? && e.value.statusCode == 401 then ErrorReply(Auth004, Some(401))
    else ErrorReply(Auth013, None)
  }

  /** The `catch` block of sign-in. */
  function SignInFailure(e: Option<ApiError>): Response {
    if e.Some? && e.value.code.Some? && SignInApiCode(e.value.code.value).Some? then
      var m := SignInApiCode(e.value.code.value).value;
      ErrorReply(m.0, Some(m.1))
    else if e.Some? && e.value.statusCode == 401 then ErrorReply(Auth004, Some(401))
    else if e.Some? && e.value.statusCode == 403 then ErrorReply(Auth007, Some(403))
    else ErrorReply(Auth013, None)
  }

  /** Sign-up's library errors: an existing address is AUTH_009/409, a password of bad length AUTH_002/400, an unmapped 401 AUTH_004/401, anything else AUTH_013/500. */
  lemma {:induction false} SignUpErrorMapping(e: Option<ApiError>)
    ensures var r := SignUpFailure(e);
      && r.Failure?
      && (r.code == Auth009 <==> e.Some? && e.value.code in {Some("USER_ALREADY_EXISTS"), Some("USER_ALREADY_EXISTS_USE_ANOTHER_EMAIL")})
      && (r.code == Auth002 <==> e.Some? && e.value.code in {Some("PASSWORD_TOO_SHORT"), Some("PASSWORD_TOO_LONG")})
      && (r.code == Auth004 <==> e.Some? && e.value.statusCode == 401 && (e.value.code.None? || SignUpApiCode(e.value.code.value).None?))
      && (r.code == Auth013 <==> e.None? || (e.value.statusCode != 401 && (e.value.code.None? || SignUpApiCode(e.value.code.value).None?)))
      && r.status == ErrorStatus(r.code)
  {
  }

  /** Sign-in's library errors: bad credentials or an unknown account are AUTH_004/401, an unverified address AUTH_007/403, an unmapped 401 or 403 likewise, anything else AUTH_013/500. */
  lemma {:induction false} SignInErrorMapping(e: Option<ApiError>)
    ensures var r := SignInFailure(e);
      && r.Failure?
      && (r.code == Auth004 <==>
            && e.Some?
            && (|| e.value.code in {Some("INVALID_EMAIL_OR_PASSWORD"), Some("CREDENTIAL_ACCOUNT_NOT_FOUND"), Some("ACCOUNT_NOT_FOUND")}
                || (e.value.statusCode == 401 && (e.value.code.None? || SignInApiCode(e.value.code.value).None?))))
      && (r.code == Auth007 <==>
            && e.Some?
            && (|| e.value.code == Some("EMAIL_NOT_VERIFIED")
                || (e.value.statusCode == 403 && (e.value.code.None? || SignInApiCode(e.value.code.value).None?))))
      && (r.code == Auth013 <==> e.None? || (e.value.statusCode !in {401, 403} && (e.value.code.None? || SignInApiCode(e.value.code.value).None?)))
      && r.status == ErrorStatus(r.code)
  {
  }

  // ---------------------------------------------------------------------
  // The response of a successful call.

  /** `roleResult[0]?.role?.toLowerCase() ?? "client"`: no row or a null role reads as "client". */
  function ResolvedRole(stored: Option<Option<string>>): string {
    if stored.Some? && stored.value.Some? then ToLower(stored.value.value) else "client"
  }

  /** The reported role is the stored enum value in lower case, and "client" when there is none. */
  lemma {:induction false} ResolvedRoleValues(r: Entities.Role)
    ensures ResolvedRole(Some(Some(Entities.RoleKey(r)))) in {"client", "internal_staff", "attorney", "admin"}
    ensures ResolvedRole(Some(Some(Entities.RoleKey(r)))) == "client" <==> r == Entities.ClientRole
    ensures ResolvedRole(None) == "client" && ResolvedRole(Some(None)) == "client"
  {
    var k := Entities.RoleKey(r);
    match r
    case ClientRole => assert ToLower(k) == "client";
    case InternalStaffRole => assert ToLower(k) == "internal_staff";
    case AttorneyRole => assert ToLower(k) == "attorney";
    case AdminRole => assert ToLower(k) == "admin";
  }

  predicate IsSetCookie(h: (string, string)) {
    ToLower(h.0) == "set-cookie"
  }

  /** The Set-Cookie values of the library's headers, in order. */
  function SetCookies(headers: seq<(string, string)>): (r: seq<string>)
    ensures |r| <= |headers|
  {
    if headers == [] then []
    else
      var last := headers[|headers| - 1];
      SetCookies(headers[..|headers| - 1]) + (if IsSetCookie(last) then [last.1] else [])
  }

  /** A value is collected exactly when some Set-Cookie header carries it. */
  lemma {:induction false} SetCookiesMembers(headers: seq<(string, string)>, v: string)
    ensures v in SetCookies(headers) <==> exists k | 0 <= k < |headers| :: IsSetCookie(headers[k]) && headers[k].1 == v
  {
    if headers != [] {
      var init := headers[..|headers| - 1];
      SetCookiesMembers(init, v);
      if exists k | 0 <= k < |init| :: IsSetCookie(init[k]) && init[k].1 == v {
        var k :| 0 <= k < |init| && IsSetCookie(init[k]) && init[k].1 == v;
        assert headers[k] == init[k];
      }
      if exists k | 0 <= k < |headers| :: IsSetCookie(headers[k]) && headers[k].1 == v {
        var k :| 0 <= k < |headers| && IsSetCookie(headers[k]) && headers[k].1 == v;
        if k < |init| {
          assert init[k] == headers[k];
        }
      }
    }
  }

  /** `headers.forEach((value, key) => { if (key.toLowerCase() === "set-cookie") cookies.push(value) })` */
  method CollectSetCookies(headers: seq<(string, string)>) returns (cookies: seq<string>)
    ensures cookies == SetCookies(headers)
  {
    cookies := [];
    var i := 0;
    while i < |headers|
      invariant 0 <= i <= |headers|
      invariant cookies == SetCookies(headers[..i])
    {
      assert headers[..i + 1][..i] == headers[..i];
      if IsSetCookie(headers[i]) {
        cookies := cookies + [headers[i].1];
      }
      i := i + 1;
    }
    assert headers[..|headers|] == headers;
  }

  /** Every collected cookie rewritten to the session's duration. */
  function FormatAll(cookies: seq<string>, seconds: int, expires: string): (r: seq<string>)
    ensures |r| == |cookies|
    ensures forall i | 0 <= i < |cookies| :: r[i] == Cookie.FormatCookieDuration(cookies[i], seconds, expires)
  {
    if cookies == [] then [] else [Cookie.FormatCookieDuration(cookies[0], seconds, expires)] + FormatAll(cookies[1..], seconds, expires)
  }

  /**
   * `POST /api/auth/sign-up` as evidently intended: the new user's Client row
   * gets the number `generateCustomerNumber` issues (`SignUpClientRows`), so
   * a request the library signs up ends in 201. `expires` stands for the
   * session's expiry written as `toUTCString()` would.
   */
  function SignUp(body: Option<Json>, outcome: Outcome, expires: string): Response {
    match ValidateSignUp(body)
    case Rejected(c, m) => Failure(c, 400, m)
    case Accepted((_, creds)) =>
      match outcome
      case Signed(token, role, headers) =>
        if token.None? || token.value == [] then ErrorReply(Auth013, None)
        else
          var seconds := SessionSeconds(creds.persistent);
          Success(201, token, ResolvedRole(role), seconds, FormatAll(SetCookies(headers), seconds, expires))
      case LibraryError(e) => SignUpFailure(Some(e))
      case OtherError => SignUpFailure(None)
  }

  /**
   * `POST /api/auth/sign-up` as written. `generateCustomerIdentifier` is not
   * an export of src/lib/number-generator.ts, so the imported name is
   * `undefined` and the call that precedes the Client row throws a
   * `TypeError`. The `catch` block sees an error that is not an `APIError`,
   * so every request that gets that far ends in AUTH_013.
   */
  function SignUpAsWritten(body: Option<Json>, outcome: Outcome, expires: string): Response {
    match ValidateSignUp(body)
    case Rejected(c, m) => Failure(c, 400, m)
    case Accepted(_) =>
      match outcome
      case Signed(token, _, _) =>
        if token.None? || token.value == [] then ErrorReply(Auth013, None)
        else SignUpFailure(None)
      case LibraryError(e) => SignUpFailure(Some(e))
      case OtherError => SignUpFailure(None)
  }

  /**
   * As written, sign-up never succeeds: every request the intended route
   * answers with 201 ends in AUTH_013 with status 500 instead, and every
   * other answer is the same.
   */
  lemma {:induction false} SignUpAsWrittenNeverSucceeds(body: Option<Json>, outcome: Outcome, expires: string)
    ensures !SignUpAsWritten(body, outcome, expires).Success?
    ensures SignUp(body, outcome, expires).Success? ==>
      SignUpAsWritten(body, outcome, expires) == ErrorReply(Auth013, None)
      && SignUpAsWritten(body, outcome, expires).status == 500
    ensures SignUp(body, outcome, expires).Failure? ==> SignUpAsWritten(body, outcome, expires) == SignUp(body, outcome, expires)
  {
  }

  /** The body of `SignUpAsWrittenExample`. */
  const ExampleBody: Json := JObject([("name", JString("A")), ("email", JString("a@b.jp")), ("password", JString("Abcdefgh123!"))])

  /** The members of the example body. */
  lemma ExampleFields()
    ensures Field(ExampleBody, "name") == Some(JString("A"))
    ensures Field(ExampleBody, "email") == Some(JString("a@b.jp"))
    ensures Field(ExampleBody, "password") == Some(JString("Abcdefgh123!"))
    ensures Field(ExampleBody, "rememberMe") == None
  {
    var f := ExampleBody.fields;
    assert f[..2] == [f[0], f[1]] && f[..2][..1] == [f[0]] && [f[0]][..0] == [];
    assert LastMember(f, "password") == Some(JString("Abcdefgh123!"));
    assert LastMember(f, "email") == LastMember(f[..2], "email");
    assert LastMember(f, "name") == LastMember(f[..2], "name") == LastMember(f[..2][..1], "name");
    assert LastMember(f, "rememberMe") == LastMember(f[..2], "rememberMe") == LastMember(f[..2][..1], "rememberMe")
      == LastMember([f[0]][..0], "rememberMe");
  }

  /** The example name is not blank and well under 100 units. */
  lemma ExampleName()
    ensures !IsBlank("A") && Utf16Length(Trim("A")) <= 100
  {
    assert TrimStart("A") == "A";
    assert TrimEnd("A") == "A";
  }

  /** The example address is its own normal form and has the pattern's shape. */
  lemma ExampleEmail()
    ensures EmailShape(NormalizeEmail("a@b.jp"))
  {
    ExampleEmailNormal();
    ExampleEmailShape();
  }

  /** Trimming and lower-casing leave the example address unchanged. */
  lemma ExampleEmailNormal()
    ensures NormalizeEmail("a@b.jp") == "a@b.jp"
  {
    var e := "a@b.jp";
    assert TrimStart(e) == e;
    assert TrimEnd(e) == e;
    forall i | 0 <= i < |e| ensures AsciiLower(e[i]) == e[i] {
      assert !('A' <= e[i] <= 'Z');
    }
    assert ToLower(e) == e;
  }

  /** The example address has one `@` after its first character and a `.` inside the domain. */
  lemma ExampleEmailShape()
    ensures EmailShape("a@b.jp")
  {
    var e := "a@b.jp";
    forall k | 0 <= k < |e| ensures !IsSpace(e[k]) {
      assert '.' <= e[k] <= 'p';
    }
    assert forall k | 0 <= k < |e| && k != 1 :: e[k] != '@';
    assert e[1] == '@' && e[3] == '.';
  }

  /** The example password has all four character kinds and 12 characters. */
  lemma ExamplePassword()
    ensures PasswordPattern("Abcdefgh123!")
  {
    var w := "Abcdefgh123!";
    assert |w| == 12;
    forall m | 0 <= m < |w| ensures !IsLineTerminator(w[m]) {
      assert '!' <= w[m] <= 'z';
    }
    assert Contains(w, Lower) by { assert InClass(Lower, w[1]); }
    assert Contains(w, Upper) by { assert InClass(Upper, w[0]); }
    assert Contains(w, Digit) by { assert InClass(Digit, w[8]); }
    assert Contains(w, Symbol) by { assert InClass(Symbol, w[11]); }
    LookaheadContains(w, Lower);
    LookaheadContains(w, Upper);
    LookaheadContains(w, Digit);
    LookaheadContains(w, Symbol);
  }

  /** A body with the example's fields passes every sign-up check. */
  lemma BodyWithExampleFieldsValid(p: Json)
    requires p.JObject?
    requires Field(p, "name") == Some(JString("A"))
    requires Field(p, "email") == Some(JString("a@b.jp"))
    requires Field(p, "password") == Some(JString("Abcdefgh123!"))
    requires Field(p, "rememberMe") == None
    ensures SignUpBodyValid(Some(p))
  {
    var name := Str(Field(p, "name"));
    var email := Str(Field(p, "email"));
    var password := Str(Field(p, "password"));
    assert name == "A";
    ExampleName();
    assert !IsBlank(name) && Utf16Length(Trim(name)) <= 100;
    assert email == "a@b.jp";
    ExampleEmail();
    assert EmailShape(NormalizeEmail(email));
    assert password == "Abcdefgh123!";
    ExamplePassword();
    assert PasswordPattern(password);
  }

  /**
   * A request that shows it: a valid body, and a library that signed the
   * user up and returned a session token.
   */
  lemma SignUpAsWrittenExample()
    ensures SignUp(Some(ExampleBody), Signed(Some("t"), None, []), "x").status == 201
    ensures SignUpAsWritten(Some(ExampleBody), Signed(Some("t"), None, []), "x").status == 500
  {
    ExampleFields();
    BodyWithExampleFieldsValid(ExampleBody);
    SignUpStatus(Some(ExampleBody), Signed(Some("t"), None, []), "x");
    SignUpAsWrittenNeverSucceeds(Some(ExampleBody), Signed(Some("t"), None, []), "x");
  }

  /**
   * The Client table after sign-up as evidently intended: one row for the new
   * user, whose customer number `generateCustomerNumber` issues and which is
   * written to `customerNumber`, as every other writer of the table does.
   */
  function SignUpClientRows(clients: seq<Entities.ClientRow>, userId: Entities.UserId): seq<Entities.ClientRow> {
    clients + [Entities.ClientRow(userId, Numbering.CustomerNumberFor(Entities.CustomerNumbers(clients)))]
  }

  /**
   * A user signing up has no Client row yet; afterwards it has one, and while
   * the stored numbers are well formed and below MJ9999 its customer number
   * is well formed and held by no other row.
   */
  lemma SignUpClientRow(clients: seq<Entities.ClientRow>, userId: Entities.UserId)
    requires Entities.FindClient(clients, userId).None?
    requires forall r | r in clients && StartsWith(r.customerNumber, Numbering.Prefix) ::
      Numbering.WellFormedCustomerNumber(r.customerNumber) && Numbering.CustomerDigitsValue(r.customerNumber) < 9999
    ensures var n := Numbering.CustomerNumberFor(Entities.CustomerNumbers(clients));
      && Entities.FindClient(SignUpClientRows(clients, userId), userId) == Some(n)
      && Numbering.WellFormedCustomerNumber(n)
      && forall r | r in clients :: r.customerNumber != n
  {
    var numbers := Entities.CustomerNumbers(clients);
    var n := Numbering.CustomerNumberFor(numbers);
    var rows := SignUpClientRows(clients, userId);
    forall x | x in numbers && StartsWith(x, Numbering.Prefix)
      ensures Numbering.WellFormedCustomerNumber(x) && Numbering.CustomerDigitsValue(x) < 9999
    {
      var i :| 0 <= i < |numbers| && numbers[i] == x;
      assert clients[i] in clients;
    }
    Numbering.NewCustomerNumberIsGreatest(numbers);
    forall r | r in clients ensures r.customerNumber != n {
      var i :| 0 <= i < |clients| && clients[i] == r;
      assert numbers[i] in numbers;
    }
    var found := Entities.FindClient(rows, userId);
    assert rows[|clients|].userId == userId;
    assert Entities.ClientRow(userId, found.value) in rows;
  }

  /** `POST /api/auth/sign-in`. */
  function SignIn(body: Option<Json>, outcome: Outcome, expires: string): Response {
    match ValidateSignIn(body)
    case Rejected(c, _) => ErrorReply(c, None)
    case Accepted(creds) =>
      match outcome
      case Signed(token, role, headers) =>
        var seconds := SessionSeconds(creds.persistent);
        Success(200, token, ResolvedRole(role), seconds, FormatAll(SetCookies(headers), seconds, expires))
      case LibraryError(e) => SignInFailure(Some(e))
      case OtherError => SignInFailure(None)
  }

  /**
   * A sign-up ends in 201 exactly when the body passes every check and the
   * library returned a session token; every failure carries its code's
   * status, and a rejected body never reaches the library.
   */
  lemma {:induction false} SignUpStatus(body: Option<Json>, outcome: Outcome, expires: string)
    ensures var r := SignUp(body, outcome, expires);
      && (r.Success? <==> SignUpBodyValid(body) && outcome.Signed? && outcome.token.Some? && outcome.token.value != [])
      && (r.Success? ==> r.status == 201)
      && (r.Failure? ==> r.status == ErrorStatus(r.code))
      && (!SignUpBodyValid(body) ==> r.Failure? && r == SignUp(body, OtherError, expires))
  {
    SignUpAcceptance(body);
    if ValidateSignUp(body).Accepted? {
      match outcome
      case Signed(_, _, _) =>
      case LibraryError(e) => SignUpErrorMapping(Some(e));
      case OtherError => SignUpErrorMapping(None);
    }
  }

  /** A sign-in ends in 200 exactly when the body passes the checks and the library signed the user in; failures carry their code's status. */
  lemma {:induction false} SignInStatus(body: Option<Json>, outcome: Outcome, expires: string)
    ensures var r := SignIn(body, outcome, expires);
      && (r.Success? <==> ValidateSignIn(body).Accepted? && outcome.Signed?)
      && (r.Success? ==> r.status == 200)
      && (r.Failure? ==> r.status == ErrorStatus(r.code))
  {
    if ValidateSignIn(body).Accepted? {
      match outcome
      case Signed(_, _, _) =>
      case LibraryError(e) => SignInErrorMapping(Some(e));
      case OtherError => SignInErrorMapping(None);
    }
  }

  /**
   * On success every Set-Cookie header of the library comes back once, in
   * order, rewritten to the session's duration; a well-formed one ends with
   * `Max-Age` and `Expires` set to the session's values.
   */
  lemma {:induction false} SuccessCookies(body: Option<Json>, outcome: Outcome, expires: string, k: nat,
                                          head: string, attrs: seq<Cookie.CookieAttr>)
    requires SignUp(body, outcome, expires).Success?
    requires k < |SetCookies(outcome.headers)|
    requires SetCookies(outcome.headers)[k] == Cookie.Render(head, attrs)
    requires Cookie.WellFormed(head, attrs) && Cookie.ExpiresValue(expires)
    ensures var r := SignUp(body, outcome, expires);
      && |r.cookies| == |SetCookies(outcome.headers)|
      && r.cookies[k] == Cookie.Render(head, Cookie.Formatted(attrs, r.sessionSeconds, expires))
      && Cookie.MaxAgeAttr(IntToString(r.sessionSeconds)) in Cookie.Formatted(attrs, r.sessionSeconds, expires)
      && Cookie.ExpiresAttr(expires) in Cookie.Formatted(attrs, r.sessionSeconds, expires)
  {
    SignUpCookies(body, outcome, expires);
    var r := SignUp(body, outcome, expires);
    assert outcome.Signed? && r.Success?;
    ResponseCookie(SignUp(body, outcome, expires), SetCookies(outcome.headers), k, expires, head, attrs);
  }

  /** A success carrying the rewritten cookies has the well-formed one at `k` with both attributes set. */
  lemma ResponseCookie(r: Response, cookies: seq<string>, k: nat, expires: string,
                       head: string, attrs: seq<Cookie.CookieAttr>)
    requires r.Success? && r.sessionSeconds > 0 && r.cookies == FormatAll(cookies, r.sessionSeconds, expires)
    requires k < |cookies| && cookies[k] == Cookie.Render(head, attrs)
    requires Cookie.WellFormed(head, attrs) && Cookie.ExpiresValue(expires)
    ensures |r.cookies| == |cookies|
    ensures r.cookies[k] == Cookie.Render(head, Cookie.Formatted(attrs, r.sessionSeconds, expires))
    ensures Cookie.MaxAgeAttr(IntToString(r.sessionSeconds)) in Cookie.Formatted(attrs, r.sessionSeconds, expires)
    ensures Cookie.ExpiresAttr(expires) in Cookie.Formatted(attrs, r.sessionSeconds, expires)
  {
    FormattedCookie(cookies, k, r.sessionSeconds, expires, head, attrs);
  }

  /** A well-formed cookie among those rewritten comes out with both attributes set. */
  lemma {:induction false} FormattedCookie(cookies: seq<string>, k: nat, seconds: int, expires: string,
                                          head: string, attrs: seq<Cookie.CookieAttr>)
    requires k < |cookies| && cookies[k] == Cookie.Render(head, attrs)
    requires Cookie.WellFormed(head, attrs) && Cookie.ExpiresValue(expires)
    ensures var r := FormatAll(cookies, seconds, expires);
      && r[k] == Cookie.Render(head, Cookie.Formatted(attrs, seconds, expires))
      && (seconds > 0 ==> Cookie.MaxAgeAttr(IntToString(seconds)) in Cookie.Formatted(attrs, seconds, expires))
      && Cookie.ExpiresAttr(expires) in Cookie.Formatted(attrs, seconds, expires)
  {
    Cookie.FormatStructured(head, attrs, seconds, expires);
    Cookie.FormatSetsBoth(head, attrs, seconds, expires);
  }

  /** A successful sign-up returns the library's Set-Cookie headers, each rewritten to the session's duration. */
  lemma {:induction false} SignUpCookies(body: Option<Json>, outcome: Outcome, expires: string)
    requires SignUp(body, outcome, expires).Success?
    ensures var r := SignUp(body, outcome, expires);
      r.cookies == FormatAll(SetCookies(outcome.headers), r.sessionSeconds, expires) && r.sessionSeconds > 0
  {
  }
}

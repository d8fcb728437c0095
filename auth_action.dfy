/**
 * The administrator login decision and logout. The login checks, in this
 * order, that the administrator credentials are configured, that both
 * inputs were given, and that they match; only a match writes the session
 * cookie. The random token, the cookie options from the shared auth
 * settings and whether cookies are marked secure are given as inputs.
 */
module AuthAction {
  import opened JsValues
  import opened JsStrings
  import opened EnvStore

  /** The request body; either field may be absent. */
  datatype LoginBody = LoginBody(email: Option<string>, password: Option<string>)

  datatype LoginResult =
    | LoginOk
    | LoginFailed(error: string, missing: Option<seq<string>>)

  /** The session cookie a response writes: its value, lifetime in seconds and flags. */
  datatype Cookie = Cookie(value: string, maxAge: int, httpOnly: bool, secure: bool)

  /** `s?.trim()`. */
  function TrimOpt(s: Option<string>): (r: Option<string>)
    ensures r.Some? <==> s.Some?
    ensures r.Some? ==> r.value == Trim(s.value)
  {
    match s
    case None => None
    case Some(v) => Some(Trim(v))
  }

  /** The names of the administrator settings that are unset or blank, in the order email, password. */
  function MissingAdminSettings(adminEmail: Option<string>, adminPassword: Option<string>): (missing: seq<string>)
    ensures "ADMIN_EMAIL" in missing <==> !Truthy(adminEmail)
    ensures "ADMIN_PASSWORD" in missing <==> !Truthy(adminPassword)
    ensures |missing| <= 2 && (|missing| == 2 ==> missing == ["ADMIN_EMAIL", "ADMIN_PASSWORD"])
  {
    (if !Truthy(adminEmail) then ["ADMIN_EMAIL"] else []) + (if !Truthy(adminPassword) then ["ADMIN_PASSWORD"] else [])
  }

  /**
   * `loginAction`: the result and the cookie written, if any. The
   * configuration is checked before the input; the email is compared
   * trimmed and lower-cased, the password trimmed only.
   */
  function Login(env: Env, body: LoginBody, token: string, maxAge: int, secureCookie: bool): (r: (LoginResult, Option<Cookie>))
    ensures r.1.Some? <==> r.0 == LoginOk
    ensures r.1.Some? ==> r.1.value == Cookie(token, maxAge, true, secureCookie)
    ensures var adminEmail := TrimOpt(EnvVar(env, "ADMIN_EMAIL"));
            var adminPassword := TrimOpt(EnvVar(env, "ADMIN_PASSWORD"));
      && (!Truthy(adminEmail) || !Truthy(adminPassword) ==>
            r.0 == LoginFailed("Admin credentials not configured", Some(MissingAdminSettings(adminEmail, adminPassword))))
      && (Truthy(adminEmail) && Truthy(adminPassword) && (!Truthy(body.email) || !Truthy(body.password)) ==>
            r.0 == LoginFailed("Missing email or password", None))
    ensures var adminEmail := TrimOpt(EnvVar(env, "ADMIN_EMAIL"));
            var adminPassword := TrimOpt(EnvVar(env, "ADMIN_PASSWORD"));
      Truthy(adminEmail) && Truthy(adminPassword) && Truthy(body.email) && Truthy(body.password) ==>
        (r.0 == LoginOk || r.0 == LoginFailed("Invalid credentials", None))
    ensures r.0.LoginFailed? && r.0.missing.Some? ==> r.0.missing.value != []
  {
    var adminEmail := TrimOpt(EnvVar(env, "ADMIN_EMAIL"));
    var adminPassword := TrimOpt(EnvVar(env, "ADMIN_PASSWORD"));
    if !Truthy(adminEmail) || !Truthy(adminPassword) then
      (LoginFailed("Admin credentials not configured", Some(MissingAdminSettings(adminEmail, adminPassword))), None)
    else if !Truthy(body.email) || !Truthy(body.password) then
      (LoginFailed("Missing email or password", None), None)
    else if Lower(Trim(body.email.value)) != Lower(Trim(adminEmail.value)) || Trim(body.password.value) != adminPassword.value then
      (LoginFailed("Invalid credentials", None), None)
    else
      (LoginOk, Some(Cookie(token, maxAge, true, secureCookie)))
  }

  /**
   * A login succeeds exactly when both administrator settings are set to
   * something other than white space, both inputs are non-empty, the email
   * matches the administrator's up to surrounding white space and ASCII
   * letter case, and the password matches up to surrounding white space.
   */
  lemma LoginSucceedsIff(env: Env, body: LoginBody, token: string, maxAge: int, secureCookie: bool)
    ensures Login(env, body, token, maxAge, secureCookie).0 == LoginOk <==>
      && "ADMIN_EMAIL" in env && Trim(env["ADMIN_EMAIL"]) != ""
      && "ADMIN_PASSWORD" in env && Trim(env["ADMIN_PASSWORD"]) != ""
      && Truthy(body.email) && Truthy(body.password)
      && Lower(Trim(body.email.value)) == Lower(Trim(env["ADMIN_EMAIL"]))
      && Trim(body.password.value) == Trim(env["ADMIN_PASSWORD"])
  {
    if "ADMIN_EMAIL" in env {
      TrimIdempotent(env["ADMIN_EMAIL"]);
    }
  }

  /** Without administrator settings, every login fails the same way, whatever was entered. */
  lemma ConfigurationCheckedFirst(env: Env, body1: LoginBody, body2: LoginBody, token: string, maxAge: int, secureCookie: bool)
    requires !Truthy(TrimOpt(EnvVar(env, "ADMIN_EMAIL"))) || !Truthy(TrimOpt(EnvVar(env, "ADMIN_PASSWORD")))
    ensures Login(env, body1, token, maxAge, secureCookie) == Login(env, body2, token, maxAge, secureCookie)
    ensures Login(env, body1, token, maxAge, secureCookie).0.error == "Admin credentials not configured"
  {
  }

  /**
   * The entered email counts only through its trimmed, lower-cased form:
   * entering that form instead logs in alike.
   */
  lemma EmailNormalised(env: Env, email: string, password: Option<string>,
                        token: string, maxAge: int, secureCookie: bool)
    requires Trim(email) != ""
    ensures Login(env, LoginBody(Some(email), password), token, maxAge, secureCookie)
         == Login(env, LoginBody(Some(Lower(Trim(email))), password), token, maxAge, secureCookie)
  {
    LowerTrimStable(email);
  }

  /**
   * The password is compared with its letter case: a password that differs
   * from the administrator's in letter case alone is refused.
   */
  lemma PasswordCaseSensitive(env: Env, email: string, password: string, token: string, maxAge: int, secureCookie: bool)
    requires "ADMIN_EMAIL" in env && "ADMIN_PASSWORD" in env
    requires Trim(env["ADMIN_EMAIL"]) != "" && email != ""
    requires Trimmed(env["ADMIN_PASSWORD"]) && Trimmed(password)
    requires Lower(password) == Lower(env["ADMIN_PASSWORD"]) && password != env["ADMIN_PASSWORD"]
    ensures Login(env, LoginBody(Some(email), Some(password)), token, maxAge, secureCookie).0.LoginFailed?
  {
    TrimOfTrimmed(env["ADMIN_PASSWORD"]);
    TrimOfTrimmed(password);
    LoginSucceedsIff(env, LoginBody(Some(email), Some(password)), token, maxAge, secureCookie);
  }

  /** `logoutAction`: always ok, and writes an empty session cookie that expires at once. */
  function Logout(secureCookie: bool): (r: (bool, Cookie))
    ensures r.0
    ensures r.1.value == "" && r.1.maxAge == 0 && r.1.httpOnly && r.1.secure == secureCookie
  {
    (true, Cookie("", 0, true, secureCookie))
  }

  /**
   * The session a browser holds after a response: unchanged when nothing is
   * written, gone when the written cookie has no lifetime left (section
   * 5.2.2 of RFC 6265), the written value otherwise.
   */
  function SessionAfter(session: Option<string>, written: Option<Cookie>): Option<string> {
    match written
    case None => session
    case Some(c) => if c.maxAge <= 0 then None else Some(c.value)
  }

  /**
   * A successful login leaves the browser holding the fresh token (when the
   * configured lifetime is positive); a failed one leaves its session as it
   * was.
   */
  lemma LoginSession(env: Env, body: LoginBody, token: string, maxAge: int, secureCookie: bool, session: Option<string>)
    ensures var r := Login(env, body, token, maxAge, secureCookie);
      && (r.0 == LoginOk && maxAge > 0 ==> SessionAfter(session, r.1) == Some(token))
      && (r.0 != LoginOk ==> SessionAfter(session, r.1) == session)
  {
  }

  /** After logout there is no session, whatever was held before. */
  lemma LogoutEndsSession(session: Option<string>, secureCookie: bool)
    ensures SessionAfter(session, Some(Logout(secureCookie).1)) == None
  {
  }
}

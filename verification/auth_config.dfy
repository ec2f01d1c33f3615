/**
 * The session-provider configuration: the route guard that runs before every
 * navigation, the credential pre-check of sign-in, and the two callbacks
 * that copy identity fields into the signed token and from the token into
 * the session the client sees. The login request itself is a parameter.
 */
module AuthConfig {
  import opened Wrappers
  import opened Strings
  import opened Types

  // ---- Route guard ----

  /** Prefixes of the dashboard pages, which require a signed-in user. */
  const ProtectedPrefixes: seq<string> :=
    ["/dashboard", "/employees", "/attendance", "/leaves", "/payroll", "/documents", "/roles", "/settings"]

  /** Prefixes of the sign-in and sign-up pages. */
  const AuthPrefixes: seq<string> := ["/login", "/register"]

  const DashboardPath := "/dashboard"
  const SignInPath := "/login"

  /** Raw string-prefix classification, as the guard tests it (no segment boundary). */
  predicate IsProtected(pathname: string) {
    StartsWith(pathname, "/dashboard") || StartsWith(pathname, "/employees")
    || StartsWith(pathname, "/attendance") || StartsWith(pathname, "/leaves")
    || StartsWith(pathname, "/payroll") || StartsWith(pathname, "/documents")
    || StartsWith(pathname, "/roles") || StartsWith(pathname, "/settings")
  }

  predicate IsAuthPage(pathname: string) {
    StartsWith(pathname, "/login") || StartsWith(pathname, "/register")
  }

  /** A path is protected exactly when it starts with one of the eight dashboard prefixes. */
  lemma ProtectedIffSomePrefix(pathname: string)
    ensures IsProtected(pathname) <==> exists i :: 0 <= i < |ProtectedPrefixes| && StartsWith(pathname, ProtectedPrefixes[i])
  {
    if IsProtected(pathname) {
      var i :| 0 <= i < |ProtectedPrefixes| && StartsWith(pathname, ProtectedPrefixes[i]) by {
        if StartsWith(pathname, "/dashboard") { assert ProtectedPrefixes[0] == "/dashboard"; }
        else if StartsWith(pathname, "/employees") { assert ProtectedPrefixes[1] == "/employees"; }
        else if StartsWith(pathname, "/attendance") { assert ProtectedPrefixes[2] == "/attendance"; }
        else if StartsWith(pathname, "/leaves") { assert ProtectedPrefixes[3] == "/leaves"; }
        else if StartsWith(pathname, "/payroll") { assert ProtectedPrefixes[4] == "/payroll"; }
        else if StartsWith(pathname, "/documents") { assert ProtectedPrefixes[5] == "/documents"; }
        else if StartsWith(pathname, "/roles") { assert ProtectedPrefixes[6] == "/roles"; }
        else { assert ProtectedPrefixes[7] == "/settings"; }
      }
    }
    if exists i :: 0 <= i < |ProtectedPrefixes| && StartsWith(pathname, ProtectedPrefixes[i]) {
      var i :| 0 <= i < |ProtectedPrefixes| && StartsWith(pathname, ProtectedPrefixes[i]);
      assert ProtectedPrefixes[i] in ProtectedPrefixes;
    }
  }

  /** A path is an auth page exactly when it starts with `/login` or `/register`. */
  lemma AuthPageIffSomePrefix(pathname: string)
    ensures IsAuthPage(pathname) <==> exists i :: 0 <= i < |AuthPrefixes| && StartsWith(pathname, AuthPrefixes[i])
  {
    if IsAuthPage(pathname) {
      var i :| 0 <= i < |AuthPrefixes| && StartsWith(pathname, AuthPrefixes[i]) by {
        if StartsWith(pathname, "/login") { assert AuthPrefixes[0] == "/login"; }
        else { assert AuthPrefixes[1] == "/register"; }
      }
    }
    if exists i :: 0 <= i < |AuthPrefixes| && StartsWith(pathname, AuthPrefixes[i]) {
      var i :| 0 <= i < |AuthPrefixes| && StartsWith(pathname, AuthPrefixes[i]);
      assert AuthPrefixes[i] in AuthPrefixes;
    }
  }

  /** A raw prefix fixes the path's leading characters. */
  lemma PrefixChars(pathname: string, prefix: string)
    requires StartsWith(pathname, prefix) && |prefix| >= 3
    ensures pathname[1] == prefix[1] && pathname[2] == prefix[2]
  {
    assert pathname[..|prefix|][1] == prefix[1];
    assert pathname[..|prefix|][2] == prefix[2];
  }

  /** The guard's three answers: go on, refuse (the provider then sends to sign-in), or redirect. */
  datatype Decision = Allow | Deny | Redirect(target: string)

  /** What the session provider knows about the request: maybe a session, maybe with a user. */
  datatype SessionUser = SessionUser(id: string, email: string, name: string)
  datatype AuthInfo = AuthInfo(user: Option<SessionUser>)

  /** Signed in means exactly that the session carries a user. */
  predicate LoggedIn(auth: Option<AuthInfo>) {
    auth.Some? && auth.value.user.Some?
  }

  function Authorized(auth: Option<AuthInfo>, pathname: string): (d: Decision)
    ensures d == Deny <==> IsProtected(pathname) && !LoggedIn(auth)
    ensures d.Redirect? <==> !IsProtected(pathname) && IsAuthPage(pathname) && LoggedIn(auth)
    ensures d.Redirect? ==> d.target == DashboardPath
  {
    var isLoggedIn := LoggedIn(auth);
    if IsProtected(pathname) then
      if isLoggedIn then Allow else Deny
    else if IsAuthPage(pathname) && isLoggedIn then
      Redirect(DashboardPath)
    else
      Allow
  }

  /**
   * Every sign-in prefix differs from every dashboard prefix in its second
   * or third character.
   */
  lemma PrefixesDifferEarly(i: int, j: int)
    requires 0 <= i < |AuthPrefixes| && 0 <= j < |ProtectedPrefixes|
    ensures |AuthPrefixes[i]| >= 3 && |ProtectedPrefixes[j]| >= 3
    ensures AuthPrefixes[i][1] != ProtectedPrefixes[j][1] || AuthPrefixes[i][2] != ProtectedPrefixes[j][2]
  {
    var a, p := AuthPrefixes[i], ProtectedPrefixes[j];
    if i == 0 { assert a == "/login"; assert a[1] == 'l' && a[2] == 'o'; }
    else { assert a == "/register"; assert a[1] == 'r' && a[2] == 'e'; }
    if j == 0 { assert p == "/dashboard"; assert p[1] == 'd'; }
    else if j == 1 { assert p == "/employees"; assert p[1] == 'e'; }
    else if j == 2 { assert p == "/attendance"; assert p[1] == 'a'; }
    else if j == 3 { assert p == "/leaves"; assert p[2] == 'e'; }
    else if j == 4 { assert p == "/payroll"; assert p[1] == 'p'; }
    else if j == 5 { assert p == "/documents"; assert p[1] == 'd'; }
    else if j == 6 { assert p == "/roles"; assert p[2] == 'o'; }
    else { assert p == "/settings"; assert p[1] == 's'; }
  }

  /** The two route classes are disjoint: no path is both. */
  lemma AuthPagesAreNotProtected(pathname: string)
    ensures IsAuthPage(pathname) ==> !IsProtected(pathname)
  {
    if IsAuthPage(pathname) && IsProtected(pathname) {
      AuthPageIffSomePrefix(pathname);
      ProtectedIffSomePrefix(pathname);
      var i :| 0 <= i < |AuthPrefixes| && StartsWith(pathname, AuthPrefixes[i]);
      var j :| 0 <= j < |ProtectedPrefixes| && StartsWith(pathname, ProtectedPrefixes[j]);
      PrefixesDifferEarly(i, j);
      PrefixChars(pathname, AuthPrefixes[i]);
      PrefixChars(pathname, ProtectedPrefixes[j]);
    }
  }

  /** A logged-in user is redirected only to a page they are then allowed on. */
  lemma RedirectTargetIsAllowed(auth: Option<AuthInfo>, pathname: string)
    requires Authorized(auth, pathname).Redirect?
    ensures Authorized(auth, Authorized(auth, pathname).target) == Allow
  {
    assert StartsWith(DashboardPath, "/dashboard");
  }

  /** A refused visitor is sent to the sign-in page, which they may open. */
  lemma DeniedVisitorMayOpenSignIn(auth: Option<AuthInfo>, pathname: string)
    requires Authorized(auth, pathname) == Deny
    ensures Authorized(auth, SignInPath) == Allow
  {
    assert StartsWith(SignInPath, "/login");
    AuthPagesAreNotProtected(SignInPath);
  }

  /** A visitor who is not signed in is never redirected. */
  lemma LoggedOutNeverRedirected(auth: Option<AuthInfo>, pathname: string)
    requires !LoggedIn(auth)
    ensures Authorized(auth, pathname) == (if IsProtected(pathname) then Deny else Allow)
  {
  }

  /** The prefix test has no segment boundary: `/settingsX` counts as protected. */
  lemma PrefixIsRaw()
    ensures IsProtected("/settingsX")
    ensures IsProtected("/dashboard")
    ensures !IsProtected("/")
  {
    assert "/settingsX"[..|"/settings"|] == "/settings";
    assert "/dashboard"[..|"/dashboard"|] == "/dashboard";
  }

  // ---- Credential sign-in ----

  datatype Credentials = Credentials(email: Option<string>, password: Option<string>)

  /** The login endpoint's payload on success. */
  datatype LoginData = LoginData(user: User, token: string, refreshToken: string)

  /** What awaiting the login request produced: a thrown error or a response. */
  datatype LoginOutcome = Threw | Responded(success: bool, data: Option<LoginData>)

  /** The user record handed to the session provider. */
  datatype AuthorizedUser = AuthorizedUser(
    id: string, email: string, name: string, role: int,
    organization: string, organizationCode: string, employeeCode: string,
    accessToken: string, refreshToken: string)

  /**
   * Sign-in: missing or empty credentials yield no user without calling the
   * backend; otherwise `login` is called with them and only a successful
   * response with data yields a user. A thrown error yields no user.
   */
  function Authorize(credentials: Option<Credentials>, login: (string, string) -> LoginOutcome): (r: Option<AuthorizedUser>)
    ensures r.Some? <==>
      && credentials.Some? && Truthy(credentials.value.email) && Truthy(credentials.value.password)
      && var outcome := login(credentials.value.email.value, credentials.value.password.value);
         outcome.Responded? && outcome.success && outcome.data.Some?
    ensures r.Some? ==>
      var data := login(credentials.value.email.value, credentials.value.password.value).data.value;
      && r.value.id == data.user.id && r.value.email == data.user.email
      && r.value.name == data.user.fullName && r.value.role == data.user.role
      && r.value.organization == data.user.organization
      && r.value.organizationCode == data.user.organizationCode
      && r.value.accessToken == data.token && r.value.refreshToken == data.refreshToken
      && (data.user.employeeCode.Some? ==> r.value.employeeCode == data.user.employeeCode.value)
      && (data.user.employeeCode.None? ==> r.value.employeeCode == "")
  {
    if credentials.None? || !Truthy(credentials.value.email) || !Truthy(credentials.value.password) then None
    else
      match login(credentials.value.email.value, credentials.value.password.value)
      case Threw => None
      case Responded(success, data) =>
        if success && data.Some? then
          var u := data.value.user;
          Some(AuthorizedUser(
            u.id, u.email, u.fullName, u.role, u.organization, u.organizationCode,
            u.employeeCode.GetOr(""), data.value.token, data.value.refreshToken))
        else None
  }

  // ---- Token and session callbacks ----

  /** A claim value; `Undefined` is what a missing token field reads as. */
  datatype Claim = Str(s: string) | Num(n: int) | Undefined

  type Claims = map<string, Claim>

  function Lookup(m: Claims, key: string): Claim {
    if key in m then m[key] else Undefined
  }

  /** The fields the sign-in copies from the user into the token. */
  function UserClaims(user: AuthorizedUser): (c: Claims)
    ensures c.Keys == {"id", "role", "organization", "organizationCode", "employeeCode", "accessToken", "refreshToken"}
  {
    map["id" := Str(user.id), "role" := Num(user.role),
        "organization" := Str(user.organization), "organizationCode" := Str(user.organizationCode),
        "employeeCode" := Str(user.employeeCode),
        "accessToken" := Str(user.accessToken), "refreshToken" := Str(user.refreshToken)]
  }

  datatype Trigger = SignInTrigger | SignUpTrigger | UpdateTrigger

  /**
   * The token callback: on sign-in the user's fields overwrite the token's;
   * on an update carrying a session object, that object's fields overwrite
   * the result (`{ ...token, ...session }`). Other keys are kept.
   */
  function Jwt(token: Claims, user: Option<AuthorizedUser>, trigger: Option<Trigger>, session: Option<Claims>): (r: Claims)
    ensures trigger == Some(UpdateTrigger) && session.Some? ==>
      forall k :: k in session.value ==> k in r && r[k] == session.value[k]
    ensures user.Some? && !(trigger == Some(UpdateTrigger) && session.Some?) ==>
      forall k :: k in UserClaims(user.value) ==> k in r && r[k] == UserClaims(user.value)[k]
    ensures user.Some? && trigger == Some(UpdateTrigger) && session.Some? ==>
      forall k :: k in UserClaims(user.value) && k !in session.value ==> k in r && r[k] == UserClaims(user.value)[k]
    ensures forall k :: k in token
              && (user.None? || k !in UserClaims(user.value))
              && !(trigger == Some(UpdateTrigger) && session.Some? && k in session.value)
              ==> k in r && r[k] == token[k]
    ensures forall k :: k in r ==>
              k in token || (user.Some? && k in UserClaims(user.value))
              || (trigger == Some(UpdateTrigger) && session.Some? && k in session.value)
  {
    var t := if user.Some? then token + UserClaims(user.value) else token;
    if trigger == Some(UpdateTrigger) && session.Some? then t + session.value else t
  }

  /** The session the client sees: the user's claims and the two tokens. */
  datatype Session = Session(user: Option<Claims>, accessToken: Claim, refreshToken: Claim)

  const SessionUserKeys: set<string> := {"id", "role", "organization", "organizationCode", "employeeCode"}

  /**
   * The session callback: when the session has a user, copy five identity
   * fields and the two tokens out of the token (a missing field reads as
   * undefined); without a user the session is returned as it came.
   */
  function SessionCallback(session: Session, token: Claims): (r: Session)
    ensures session.user.None? ==> r == session
    ensures session.user.Some? ==>
      && r.user.Some?
      && (forall k :: k in SessionUserKeys ==> k in r.user.value && r.user.value[k] == Lookup(token, k))
      && (forall k :: k in session.user.value && k !in SessionUserKeys ==> k in r.user.value && r.user.value[k] == session.user.value[k])
      && r.accessToken == Lookup(token, "accessToken") && r.refreshToken == Lookup(token, "refreshToken")
  {
    match session.user
    case None => session
    case Some(u) =>
      var copied := map k | k in SessionUserKeys :: Lookup(token, k);
      Session(Some(u + copied), Lookup(token, "accessToken"), Lookup(token, "refreshToken"))
  }

  /** What sign-in put into the token reaches the client's session unchanged. */
  lemma SignInReachesSession(token: Claims, user: AuthorizedUser, trigger: Option<Trigger>, session: Session)
    requires trigger != Some(UpdateTrigger)
    requires session.user.Some?
    ensures var r := SessionCallback(session, Jwt(token, Some(user), trigger, None));
            && r.user.Some?
            && r.user.value["id"] == Str(user.id)
            && r.user.value["role"] == Num(user.role)
            && r.user.value["organization"] == Str(user.organization)
            && r.user.value["organizationCode"] == Str(user.organizationCode)
            && r.user.value["employeeCode"] == Str(user.employeeCode)
            && r.accessToken == Str(user.accessToken)
            && r.refreshToken == Str(user.refreshToken)
  {
    var t := Jwt(token, Some(user), trigger, None);
    assert t == token + UserClaims(user);
  }

  /** Without a user and without an update the token passes through unchanged. */
  lemma JwtPassThrough(token: Claims, trigger: Option<Trigger>, session: Option<Claims>)
    requires !(trigger == Some(UpdateTrigger) && session.Some?)
    ensures Jwt(token, None, trigger, session) == token
  {
  }
}

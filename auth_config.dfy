/**
 * The route gate and the credentials check of auth.config.ts: the
 * `authorized` callback's decision for a request, and the chain of guards in
 * the credentials provider's `authorize`.
 */
module AuthConfig {
  import opened Wrappers
  import opened QueryBuilder

  /** `pages.signIn`: where a request the gate refuses is sent. */
  const SIGN_IN_PAGE := "/login"
  const DASHBOARD := "/dashboard"
  const MIN_PASSWORD_LENGTH: nat := 6

  /** A row of the users table; `password` holds the stored hash. */
  datatype User = User(id: string, name: string, email: string, password: string)

  /** The session the gate sees; a session may carry no user. */
  datatype Session = Session(user: Option<User>)

  /** The request URL: its origin (scheme, host and port) and its path. */
  datatype Url = Url(origin: string, pathname: string)

  /**
   * The gate's answer: let the request through, refuse it (the framework then
   * sends the visitor to SIGN_IN_PAGE, which is outside this model), or
   * redirect it to `url`.
   */
  datatype Decision = Allow | Refuse | RedirectTo(url: string)

  /** `!!auth?.user`. */
  predicate IsLoggedIn(auth: Option<Session>): (b: bool)
    ensures b <==> exists u :: auth == Some(Session(Some(u)))
  {
    auth.Some? && auth.value.user.Some?
  }

  /** `pathname.startsWith("/dashboard")`. */
  predicate IsOnDashboard(pathname: string): (b: bool)
    ensures b <==> |DASHBOARD| <= |pathname| && pathname[..|DASHBOARD|] == DASHBOARD
    ensures b ==> pathname[0] == '/'
  {
    DASHBOARD <= pathname
  }

  /** `new URL("/dashboard", nextUrl)`: the dashboard path on the request's origin. */
  function DashboardOn(url: Url): (r: string)
    ensures url.origin <= r && r[|url.origin|..] == DASHBOARD
  {
    url.origin + DASHBOARD
  }

  /** The `authorized` callback. */
  function Authorized(auth: Option<Session>, nextUrl: Url): (d: Decision)
    ensures IsOnDashboard(nextUrl.pathname) && IsLoggedIn(auth) ==> d == Allow
    ensures IsOnDashboard(nextUrl.pathname) && !IsLoggedIn(auth) ==> d == Refuse
    ensures !IsOnDashboard(nextUrl.pathname) && IsLoggedIn(auth) ==> d == RedirectTo(DashboardOn(nextUrl))
    ensures !IsOnDashboard(nextUrl.pathname) && !IsLoggedIn(auth) ==> d == Allow
  {
    if IsOnDashboard(nextUrl.pathname) then
      if IsLoggedIn(auth) then Allow else Refuse
    else if IsLoggedIn(auth) then RedirectTo(DashboardOn(nextUrl))
    else Allow
  }

  /**
   * Where a request ends up: the requested path, the sign-in page, or the
   * dashboard. A logged-in user always ends up on a dashboard path, and nobody
   * reaches a dashboard path without being logged in.
   */
  lemma GateSeparatesVisitors(auth: Option<Session>, nextUrl: Url)
    ensures Authorized(auth, nextUrl) == Refuse <==> IsOnDashboard(nextUrl.pathname) && !IsLoggedIn(auth)
    ensures Authorized(auth, nextUrl) == Allow && IsOnDashboard(nextUrl.pathname) ==> IsLoggedIn(auth)
    ensures IsLoggedIn(auth) ==>
      (Authorized(auth, nextUrl) == Allow && IsOnDashboard(nextUrl.pathname))
      || Authorized(auth, nextUrl) == RedirectTo(nextUrl.origin + DASHBOARD)
  {
  }

  /** The dashboard test is a plain prefix test: "/dashboardx" passes it, "/dash" does not. */
  lemma DashboardIsAPrefixTest()
    ensures IsOnDashboard("/dashboard") && IsOnDashboard("/dashboard/invoices")
    ensures IsOnDashboard("/dashboardx")
    ensures !IsOnDashboard("/dash") && !IsOnDashboard("/") && !IsOnDashboard("/login")
  {
    assert "/dashboard"[..|DASHBOARD|] == DASHBOARD;
    assert "/dashboard/invoices"[..|DASHBOARD|] == DASHBOARD;
    assert "/dashboardx"[..|DASHBOARD|] == DASHBOARD;
    assert "/login"[1] != DASHBOARD[1];
  }

  // ---------------------------------------------------------------------------
  // `authorize`

  /** The submitted credentials; a field that is missing or not a string is None. */
  datatype Credentials = Credentials(email: Option<string>, password: Option<string>)

  /** The parsed credentials, when both fields pass the schema. */
  datatype Parsed = Parsed(email: string, password: string)

  /**
   * The length JavaScript reports for `s`: the number of UTF-16 code units,
   * where a character above U+FFFF takes a surrogate pair.
   */
  function Utf16Length(s: string): (n: nat)
    ensures |s| <= n <= 2 * |s|
    ensures n == |s| <==> forall i :: 0 <= i < |s| ==> s[i] as int < 0x1_0000
  {
    if |s| == 0 then 0 else (if s[0] as int >= 0x1_0000 then 2 else 1) + Utf16Length(s[1..])
  }

  /**
   * The schema: the email must be a string of email shape (`isEmail`, zod's
   * own test), the password a string of at least six UTF-16 code units.
   */
  function ParseCredentials(c: Credentials, isEmail: string -> bool): (r: Option<Parsed>)
    ensures r.Some? <==>
      c.email.Some? && isEmail(c.email.value) && c.password.Some? && Utf16Length(c.password.value) >= MIN_PASSWORD_LENGTH
    ensures r.Some? ==> r.value == Parsed(c.email.value, c.password.value)
  {
    if c.email.Some? && isEmail(c.email.value) && c.password.Some? && Utf16Length(c.password.value) >= MIN_PASSWORD_LENGTH
    then Some(Parsed(c.email.value, c.password.value))
    else None
  }

  /**
   * `getUser`: `.eq("email", email).single()` over the users table. No row,
   * several rows and a failing store all leave `data` null, which the source
   * returns as is.
   */
  function GetUser(users: seq<User>, failing: bool, email: string): (r: Option<User>)
    ensures r.Some? <==> !failing && |Filter(users, (u: User) => u.email == email)| == 1
    ensures r.Some? ==> r.value in users && r.value.email == email
  {
    if failing then None else Single(users, (u: User) => u.email == email)
  }

  /**
   * `authorize`: the user, when the credentials parse, exactly one user has
   * that email and `compare(password, hash)` accepts the password against the
   * user's stored hash; null in every other case.
   */
  function Authorize(c: Credentials, users: seq<User>, failing: bool,
                     isEmail: string -> bool, compare: (string, string) -> bool): (r: Option<User>)
    ensures r.Some? <==>
      && ParseCredentials(c, isEmail).Some?
      && GetUser(users, failing, c.email.value).Some?
      && compare(c.password.value, GetUser(users, failing, c.email.value).value.password)
    ensures r.Some? ==> r.value in users && r.value.email == c.email.value
  {
    match ParseCredentials(c, isEmail)
    case None => None
    case Some(p) =>
      match GetUser(users, failing, p.email)
      case None => None
      case Some(user) => if compare(p.password, user.password) then Some(user) else None
  }

  /**
   * Three copies of U+1D538 are three characters but six code units, so the
   * schema takes them as a password of the minimum length.
   */
  lemma AstralPasswordAccepted(email: string, isEmail: string -> bool)
    requires isEmail(email)
    ensures var password := "\U{1D538}\U{1D538}\U{1D538}";
      |password| < MIN_PASSWORD_LENGTH && ParseCredentials(Credentials(Some(email), Some(password)), isEmail).Some?
  {
    var password := "\U{1D538}\U{1D538}\U{1D538}";
    assert password[1..][1..][1..] == [];
  }

  /** A password shorter than six UTF-16 code units is refused before any user is looked up. */
  lemma ShortPasswordRefused(c: Credentials, users: seq<User>, failing: bool,
                             isEmail: string -> bool, compare: (string, string) -> bool)
    requires c.password.Some? && Utf16Length(c.password.value) < MIN_PASSWORD_LENGTH
    ensures Authorize(c, users, failing, isEmail, compare).None?
  {
  }

  /** Two users sharing an email make `.single()` fail, so neither can sign in with it. */
  lemma SharedEmailRefused(c: Credentials, users: seq<User>, isEmail: string -> bool,
                           compare: (string, string) -> bool, i: nat, j: nat)
    requires i < j < |users| && c.email.Some? && users[i].email == c.email.value && users[j].email == c.email.value
    ensures Authorize(c, users, false, isEmail, compare).None?
  {
    var matches := (u: User) => u.email == c.email.value;
    FilterAtLeastTwo(users, matches, i, j);
  }

  /** Two matching rows at different positions leave at least two rows after filtering. */
  lemma {:induction false} FilterAtLeastTwo<T(!new)>(rows: seq<T>, keep: T -> bool, i: nat, j: nat)
    requires i < j < |rows| && keep(rows[i]) && keep(rows[j])
    ensures |Filter(rows, keep)| >= 2
  {
    if i > 0 {
      FilterAtLeastTwo(rows[1..], keep, i - 1, j - 1);
    } else {
      assert rows[j] == rows[1..][j - 1];
      assert rows[j] in Filter(rows[1..], keep);
    }
  }
}

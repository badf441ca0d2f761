/** The admin login decision: environment credentials first, then the user
    record, the password comparison and the role. The request's `email` and
    `password` are `None` when the body leaves them out. The database is `None`
    when connecting or the lookup throws, otherwise the users keyed by their
    (lower-case) email; the bcrypt comparison is the parameter `compare`. */
module AdminLogin {
  import opened Wrappers
  import opened Text
  import opened Schemas

  datatype User = User(email: string, name: string, role: string, password: Option<string>)

  /** The `ADMIN_EMAIL` and `ADMIN_PASSWORD` environment variables. */
  datatype AdminEnv = AdminEnv(adminEmail: Option<string>, adminPassword: Option<string>)

  /** `NoResponse` is the handler falling off its end, which answers nothing. */
  datatype LoginResponse =
    | LoggedIn(email: string, name: string, role: string)
    | Denied(status: int, error: string)
    | NoResponse

  const InvalidCredentials: string := "Invalid credentials"
  const AdminOnly: string := "Access denied. Admin only."
  const DatabaseUnavailable: string := "Login failed - database unavailable"
  const LoginFailed: string := "Login failed"

  predicate EnvConfigured(env: AdminEnv) {
    Filled(env.adminEmail) && Filled(env.adminPassword)
  }

  /** The environment-credential test of the first branch. */
  predicate EnvMatches(env: AdminEnv, email: Option<string>, password: Option<string>) {
    && EnvConfigured(env)
    && email.Some? && Lower(email.value) == Lower(env.adminEmail.value)
    && password == env.adminPassword
  }

  /** The inner `catch`: it answers 500 unless the environment credentials
      match, and evaluating its test on a missing email throws to the outer
      `catch`. */
  function DatabaseCatch(env: AdminEnv, email: Option<string>, password: Option<string>): (r: LoginResponse)
    ensures r == NoResponse <==> EnvMatches(env, email, password)
    ensures r.Denied? ==> r.status == 500
  {
    if !EnvConfigured(env) then Denied(500, DatabaseUnavailable)
    else if email.None? then Denied(500, LoginFailed)
    else if Lower(email.value) != Lower(env.adminEmail.value) || password != env.adminPassword then
      Denied(500, DatabaseUnavailable)
    else NoResponse
  }

  /** `POST /api/auth/simple-login`. */
  function Login(env: AdminEnv, email: Option<string>, password: Option<string>,
                 db: Option<map<string, User>>, compare: (string, string) -> bool): (r: LoginResponse)
    ensures r != NoResponse
    ensures EnvConfigured(env) && email.None? ==> r == Denied(500, LoginFailed)
    ensures EnvMatches(env, email, password) ==> r == LoggedIn(Lower(env.adminEmail.value), "Admin Owner", "admin")
    ensures !EnvMatches(env, email, password) && (db.None? || email.None?) && !(EnvConfigured(env) && email.None?) ==>
              r == Denied(500, DatabaseUnavailable)
    ensures !EnvMatches(env, email, password) && db.Some? && email.Some? ==>
              var key := Lower(email.value);
              var found := key in db.value && Filled(db.value[key].password);
              && (!found ==> r == Denied(401, InvalidCredentials))
              && (found && password.None? ==> r == Denied(500, DatabaseUnavailable))
              && (r == Denied(401, InvalidCredentials) <==>
                    !found || (password.Some? && !compare(password.value, db.value[key].password.value)))
              && (r == Denied(403, AdminOnly) <==>
                    found && password.Some? && compare(password.value, db.value[key].password.value)
                    && db.value[key].role != "admin")
              && (r.LoggedIn? <==>
                    found && password.Some? && compare(password.value, db.value[key].password.value)
                    && db.value[key].role == "admin")
              && (r.LoggedIn? ==> r == LoggedIn(db.value[key].email, db.value[key].name, "admin"))
  {
    if EnvConfigured(env) && email.None? then Denied(500, LoginFailed)
    else if EnvMatches(env, email, password) then
      LoggedIn(Lower(env.adminEmail.value), "Admin Owner", "admin")
    else if db.None? || email.None? then DatabaseCatch(env, email, password)
    else
      var users := db.value;
      var key := Lower(email.value);
      if key !in users || !Filled(users[key].password) then Denied(401, InvalidCredentials)
      else if password.None? then DatabaseCatch(env, email, password)
      else
        var user := users[key];
        if !compare(password.value, user.password.value) then Denied(401, InvalidCredentials)
        else if user.role != "admin" then Denied(403, AdminOnly)
        else LoggedIn(user.email, user.name, user.role)
  }

  /** With the database down, a login succeeds exactly on the environment
      credentials: both variables set, the email equal up to case, the
      password equal exactly. */
  lemma DatabaseDownLoginIff(env: AdminEnv, email: string, password: string, compare: (string, string) -> bool)
    ensures Login(env, Some(email), Some(password), None, compare).LoggedIn? <==>
              && env.adminEmail.Some? && env.adminEmail.value != ""
              && env.adminPassword.Some? && env.adminPassword.value != ""
              && EqualsIgnoreCase(email, env.adminEmail.value)
              && password == env.adminPassword.value
  {
  }

  /** Environment credentials win whatever the database holds. */
  lemma EnvLoginIgnoresDatabase(env: AdminEnv, email: Option<string>, password: Option<string>,
                                db1: Option<map<string, User>>, db2: Option<map<string, User>>,
                                compare: (string, string) -> bool)
    requires EnvMatches(env, email, password)
    ensures Login(env, email, password, db1, compare) == Login(env, email, password, db2, compare)
    ensures Login(env, email, password, db1, compare).name == "Admin Owner"
  {
  }

  /** A 403 is only ever the answer to a correct password. */
  lemma ForbiddenOnlyAfterPassword(env: AdminEnv, email: Option<string>, password: Option<string>,
                                   db: Option<map<string, User>>, compare: (string, string) -> bool)
    requires Login(env, email, password, db, compare) == Denied(403, AdminOnly)
    ensures db.Some? && email.Some? && password.Some? && Lower(email.value) in db.value
    ensures compare(password.value, db.value[Lower(email.value)].password.value)
  {
  }
}

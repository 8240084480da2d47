/** Admin login, the token guard and change-password as the two Express
    servers implement them. Both capture `ADMIN_EMAIL` and `ADMIN_PASSWORD`
    into constants at start-up; change-password writes the environment
    variable afterwards, which neither login nor change-password reads
    again. */
module ExpressAdmin {
  import opened Wrappers
  import opened Text

  /** The fallback admin email of every variant. */
  const DefaultAdminEmail := "shivasaini1938@gmail.com"

  /** Minimum length of a new password. */
  const MinPasswordLength := 6

  const NoToken := "No token provided"
  const InvalidCredentials := "Invalid credentials"
  const FieldsRequired := "Email, current password, and new password are required"
  const CurrentIncorrect := "Current password is incorrect"
  const TooShort := "New password must be at least 6 characters long"
  const PasswordChanged := "Password changed successfully"

  /** The admin identity captured at start-up. */
  datatype Config = Config(adminEmail: string, adminPassword: string)

  /** The process: the captured constants and the live value of
      `process.env.ADMIN_PASSWORD`. */
  datatype Server = Server(config: Config, passwordVar: Option<string>)

  /** Start-up: `ADMIN_EMAIL || default` and `ADMIN_PASSWORD || fallback` are
      read once; the fallback password differs between the servers. */
  function Start(emailVar: Option<string>, passwordVar: Option<string>, fallback: string): (s: Server)
    ensures s.config.adminEmail == EnvOr(emailVar, DefaultAdminEmail)
    ensures s.config.adminPassword == EnvOr(passwordVar, fallback)
    ensures s.passwordVar == passwordVar
  {
    Server(Config(EnvOr(emailVar, DefaultAdminEmail), EnvOr(passwordVar, fallback)), passwordVar)
  }

  /** `{ email, password }` of a login body. */
  datatype Credentials = Credentials(email: Option<string>, password: Option<string>)

  /** `{ ok: true, token, email }`. */
  datatype Session = Session(token: string, email: string)

  /** Where a request may carry the session token. */
  datatype Request = Request(headerToken: Option<string>, queryToken: Option<string>)

  /** POST /api/admin/login: success exactly when both fields equal the
      captured pair; the token is a fresh value supplied by the caller. */
  function Login(s: Server, c: Credentials, freshToken: string): (r: Reply<Session>)
    ensures r.Success? <==> c.email == Some(s.config.adminEmail) && c.password == Some(s.config.adminPassword)
    ensures r.Success? ==> r.status == 200 && r.value == Session(freshToken, s.config.adminEmail)
    ensures r.Failure? ==> r == Failure(401, InvalidCredentials)
  {
    if c.email == Some(s.config.adminEmail) && c.password == Some(s.config.adminPassword) then
      Success(200, Session(freshToken, c.email.value))
    else
      Failure(401, InvalidCredentials)
  }

  /** `verifyToken`: the `x-admin-token` header, else the `token` query
      parameter, must be non-empty; its value is never checked. */
  predicate Authorized(req: Request)
    ensures Authorized(req) <==> Truthy(req.headerToken) || Truthy(req.queryToken)
  {
    Truthy(FirstTruthy(req.headerToken, req.queryToken))
  }

  /** The three change-password fields are all present and non-empty. */
  predicate AllGiven(body: map<string, string>) {
    Truthy(Field(body, "email")) && Truthy(Field(body, "currentPassword")) && Truthy(Field(body, "newPassword"))
  }

  /** The body quotes the identity captured at start-up. */
  predicate QuotesIdentity(s: Server, body: map<string, string>)
    requires AllGiven(body)
  {
    body["email"] == s.config.adminEmail && body["currentPassword"] == s.config.adminPassword
  }

  /** POST /api/admin/change-password, checks in source order: token,
      missing field, identity mismatch, length, then the environment
      variable is overwritten. */
  function ChangePassword(s: Server, req: Request, body: map<string, string>): (o: Outcome<string, Server>)
    ensures o.reply.Failure? ==> o.state == s
    ensures !Authorized(req) ==> o.reply == Failure(401, NoToken)
    ensures Authorized(req) && !AllGiven(body) ==> o.reply == Failure(400, FieldsRequired)
    ensures Authorized(req) && AllGiven(body) && !QuotesIdentity(s, body)
      ==> o.reply == Failure(401, CurrentIncorrect)
    ensures Authorized(req) && AllGiven(body) && QuotesIdentity(s, body)
      && |body["newPassword"]| < MinPasswordLength
      ==> o.reply == Failure(400, TooShort)
    ensures o.reply.Success? <==>
      && Authorized(req)
      && Field(body, "email") == Some(s.config.adminEmail) && s.config.adminEmail != ""
      && Field(body, "currentPassword") == Some(s.config.adminPassword) && s.config.adminPassword != ""
      && Truthy(Field(body, "newPassword")) && |body["newPassword"]| >= MinPasswordLength
    ensures o.reply.Success? ==>
      o.reply.status == 200 && o.state == s.(passwordVar := Some(body["newPassword"]))
    ensures o.state.config == s.config
  {
    var email := Field(body, "email");
    var current := Field(body, "currentPassword");
    var next := Field(body, "newPassword");
    if !Authorized(req) then
      Outcome(Failure(401, NoToken), s)
    else if !Truthy(email) || !Truthy(current) || !Truthy(next) then
      Outcome(Failure(400, FieldsRequired), s)
    else if email.value != s.config.adminEmail || current.value != s.config.adminPassword then
      Outcome(Failure(401, CurrentIncorrect), s)
    else if |next.value| < MinPasswordLength then
      Outcome(Failure(400, TooShort), s)
    else
      Outcome(Success(200, PasswordChanged), s.(passwordVar := Some(next.value)))
  }

  /** A missing field is reported before a wrong identity, and a wrong
      email or current password before a short new one: a short new
      password is only ever reported to a caller who quoted both. */
  lemma {:induction false} ChangePasswordCheckOrder(s: Server, req: Request, body: map<string, string>)
    requires Authorized(req)
    ensures "email" !in body ==> ChangePassword(s, req, body).reply.status == 400
    ensures AllGiven(body) && body["email"] != s.config.adminEmail
      ==> ChangePassword(s, req, body).reply == Failure(401, CurrentIncorrect)
    ensures AllGiven(body) && body["currentPassword"] != s.config.adminPassword
      ==> ChangePassword(s, req, body).reply == Failure(401, CurrentIncorrect)
    ensures ChangePassword(s, req, body).reply == Failure(400, TooShort)
      ==> AllGiven(body) && QuotesIdentity(s, body) && |body["newPassword"]| < MinPasswordLength
  {
  }

  /** After a successful change the captured password still logs in and a
      different new password does not: the change never reaches login. */
  lemma {:induction false} ChangeNeverReachesLogin(
    s: Server, req: Request, body: map<string, string>, freshToken: string)
    requires ChangePassword(s, req, body).reply.Success?
    ensures var s' := ChangePassword(s, req, body).state;
      && Login(s', Credentials(Some(s.config.adminEmail), Some(s.config.adminPassword)), freshToken).Success?
      && (body["newPassword"] != s.config.adminPassword ==>
            Login(s', Credentials(Some(s.config.adminEmail), Some(body["newPassword"])), freshToken).Failure?)
  {
    var s' := ChangePassword(s, req, body).state;
    assert s'.config == s.config;
  }

  /** A second change must still quote the start-up password, not the one
      the first change set. */
  lemma {:induction false} SecondChangeStillNeedsOriginal(
    s: Server, req: Request, first: map<string, string>, second: map<string, string>)
    requires ChangePassword(s, req, first).reply.Success?
    requires Truthy(Field(second, "email")) && Truthy(Field(second, "newPassword"))
    requires Field(second, "currentPassword") == Some(first["newPassword"])
    requires first["newPassword"] != s.config.adminPassword
    ensures ChangePassword(ChangePassword(s, req, first).state, req, second).reply == Failure(401, CurrentIncorrect)
  {
    var s' := ChangePassword(s, req, first).state;
    assert s'.config == s.config;
  }
}

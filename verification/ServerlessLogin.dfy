/** The serverless admin login: the credentials come from the environment
    on every request. */
module ServerlessLogin {
  import opened Wrappers
  import opened Text
  import ExpressAdmin

  /** This handler's fallback admin password. */
  const DefaultAdminPassword := "admin123"

  /** POST /api/admin/login: other methods answer 405, a missing field 400
      before any comparison, an exact match 200 with a fresh token, anything
      else 401. */
  function Handle(verb: Method, emailVar: Option<string>, passwordVar: Option<string>,
                  c: ExpressAdmin.Credentials, freshToken: string): (r: Reply<ExpressAdmin.Session>)
    ensures verb != Post ==> r == Failure(405, "Method not allowed")
    ensures verb == Post && !(Truthy(c.email) && Truthy(c.password)) ==>
      r == Failure(400, "Email and password required")
    ensures r.Success? <==>
      && verb == Post
      && c.email == Some(EnvOr(emailVar, ExpressAdmin.DefaultAdminEmail))
      && c.password == Some(EnvOr(passwordVar, DefaultAdminPassword))
    ensures r.Success? ==> r == Success(200, ExpressAdmin.Session(freshToken, c.email.value))
    ensures verb == Post && Truthy(c.email) && Truthy(c.password) && r.Failure? ==>
      r == Failure(401, ExpressAdmin.InvalidCredentials)
  {
    var adminEmail := EnvOr(emailVar, ExpressAdmin.DefaultAdminEmail);
    var adminPassword := EnvOr(passwordVar, DefaultAdminPassword);
    if verb != Post then Failure(405, "Method not allowed")
    else if !Truthy(c.email) || !Truthy(c.password) then Failure(400, "Email and password required")
    else if c.email.value == adminEmail && c.password.value == adminPassword then
      Success(200, ExpressAdmin.Session(freshToken, c.email.value))
    else Failure(401, ExpressAdmin.InvalidCredentials)
  }
}

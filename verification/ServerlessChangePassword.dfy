/** The serverless change-password handler: the admin password lives in a
    module-level variable of this handler only, so a change is seen by later
    calls of the same instance and by nothing else. */
module ServerlessChangePassword {
  import opened Wrappers
  import opened Text
  import ExpressAdmin
  import ServerlessLogin

  /** This handler's fallback admin password. */
  const DefaultAdminPassword := "shiva@2416"

  const FieldsRequired := "oldPassword, newPassword and email required"
  const OldIncorrect := "Old password incorrect"

  /** The in-memory password an instance starts with. */
  function Initial(passwordVar: Option<string>): (stored: string)
    ensures stored == EnvOr(passwordVar, DefaultAdminPassword)
    ensures stored != ""
  {
    EnvOr(passwordVar, DefaultAdminPassword)
  }

  /** `{ ok, message, token }`. */
  datatype Changed = Changed(message: string, token: string)

  /** POST /api/admin/change-password. Checks in source order: method,
      header token, missing field, old password; then the stored password
      becomes the new one and a fresh token is issued. The email is never
      compared and the new password has no minimum length. */
  function Handle(stored: string, verb: Method, headerToken: Option<string>,
                  body: map<string, string>, freshToken: string): (o: Outcome<Changed, string>)
    ensures o.reply.Failure? ==> o.state == stored
    ensures verb != Post ==> o.reply == Failure(405, "Method not allowed")
    ensures verb == Post && !Truthy(headerToken) ==> o.reply == Failure(401, "Unauthorized")
    ensures verb == Post && Truthy(headerToken)
      && !(Truthy(Field(body, "oldPassword")) && Truthy(Field(body, "newPassword")) && Truthy(Field(body, "email")))
      ==> o.reply == Failure(400, FieldsRequired)
    ensures verb == Post && Truthy(headerToken)
      && Truthy(Field(body, "oldPassword")) && Truthy(Field(body, "newPassword")) && Truthy(Field(body, "email"))
      && body["oldPassword"] != stored
      ==> o.reply == Failure(403, OldIncorrect)
    ensures o.reply.Success? <==>
      && verb == Post && Truthy(headerToken)
      && Field(body, "oldPassword") == Some(stored) && stored != ""
      && Truthy(Field(body, "newPassword")) && Truthy(Field(body, "email"))
    ensures o.reply.Success? ==>
      && o.reply.status == 200 && o.reply.value.token == freshToken
      && o.state == body["newPassword"]
  {
    var oldPassword := Field(body, "oldPassword");
    var newPassword := Field(body, "newPassword");
    var email := Field(body, "email");
    if verb != Post then Outcome(Failure(405, "Method not allowed"), stored)
    else if !Truthy(headerToken) then Outcome(Failure(401, "Unauthorized"), stored)
    else if !Truthy(oldPassword) || !Truthy(newPassword) || !Truthy(email) then
      Outcome(Failure(400, FieldsRequired), stored)
    else if oldPassword.value != stored then Outcome(Failure(403, OldIncorrect), stored)
    else Outcome(Success(200, Changed("Password changed (non-persistent in serverless).", freshToken)), newPassword.value)
  }

  /** The body a caller would send to change `current` into `next`. */
  function ChangeBody(email: string, current: string, next: string): map<string, string> {
    map["oldPassword" := current, "newPassword" := next, "email" := email]
  }

  /** After a change, the next change must quote the new password: the old
      one is refused with 403 and the new one accepted. */
  lemma {:induction false} ChangeIsRemembered(
    stored: string, token: string, email: string, next: string, third: string, t1: string, t2: string)
    requires token != "" && email != "" && stored != "" && next != "" && third != ""
    requires next != stored
    ensures var s1 := Handle(stored, Post, Some(token), ChangeBody(email, stored, next), t1).state;
      && s1 == next
      && Handle(s1, Post, Some(token), ChangeBody(email, stored, third), t2).reply == Failure(403, OldIncorrect)
      && Handle(s1, Post, Some(token), ChangeBody(email, next, third), t2).state == third
  {
    var s1 := Handle(stored, Post, Some(token), ChangeBody(email, stored, next), t1).state;
    assert Field(ChangeBody(email, stored, next), "oldPassword") == Some(stored);
    assert s1 == next;
    assert Field(ChangeBody(email, stored, third), "oldPassword") == Some(stored);
    assert Field(ChangeBody(email, next, third), "oldPassword") == Some(next);
  }

  /** A one-character new password is accepted, and any email will do. */
  lemma {:induction false} NoLengthCheckNoEmailCheck(stored: string, token: string, email: string, c: char, t: string)
    requires token != "" && email != "" && stored != ""
    ensures Handle(stored, Post, Some(token), ChangeBody(email, stored, [c]), t).reply.Success?
  {
    assert Field(ChangeBody(email, stored, [c]), "oldPassword") == Some(stored);
  }

  /** A change never reaches the login handler, which reads its password
      from the environment: with no overrides, login keeps accepting
      "admin123" and refuses the new password. */
  lemma {:induction false} LoginIgnoresChange(token: string, next: string, t: string, t2: string)
    requires token != "" && next != "" && next != ServerlessLogin.DefaultAdminPassword
    ensures var email := ExpressAdmin.DefaultAdminEmail;
      var s1 := Handle(Initial(None), Post, Some(token), ChangeBody(email, Initial(None), next), t).state;
      && s1 == next
      && ServerlessLogin.Handle(Post, None, None, ExpressAdmin.Credentials(Some(email), Some(next)), t2).Failure?
      && ServerlessLogin.Handle(Post, None, None,
           ExpressAdmin.Credentials(Some(email), Some(ServerlessLogin.DefaultAdminPassword)), t2).Success?
  {
    var email := ExpressAdmin.DefaultAdminEmail;
    assert Field(ChangeBody(email, Initial(None), next), "oldPassword") == Some(Initial(None));
  }
}

/** The admin password form: the checks it makes before sending, the body
    it sends, and what it shows afterwards. */
module PasswordForm {
  import opened Wrappers
  import opened Text
  import ExpressAdmin
  import ServerlessChangePassword

  const MinLength := 6
  const TooShort := "New password must be at least 6 characters long"
  const Mismatch := "New passwords do not match"
  const Fallback := "Failed to change password"
  const Changed := "Password changed successfully!"

  /** The three inputs of the form. */
  datatype Inputs = Inputs(currentPassword: string, newPassword: string, confirmPassword: string)

  const Cleared := Inputs("", "", "")

  /** The banner under the form. */
  datatype Notice = Error(text: string) | Done(text: string)

  /** The form and its banner. */
  datatype Panel = Panel(inputs: Inputs, notice: Option<Notice>)

  /** What the change-password request did: an answer with its `ok` flag
      and `error` text, or a thrown error with its message. */
  datatype Response = Answered(ok: bool, error: Option<string>) | Thrown(message: string)

  /** The request the form sends. */
  datatype Request = Request(headerToken: Option<string>, body: map<string, string>)

  /** The checks before sending, length first: the error to show, or None
      when the form may be sent. */
  function Check(f: Inputs): (r: Option<string>)
    ensures r.None? <==> |f.newPassword| >= MinLength && f.newPassword == f.confirmPassword
    ensures |f.newPassword| < MinLength ==> r == Some(TooShort)
    ensures |f.newPassword| >= MinLength && f.newPassword != f.confirmPassword ==> r == Some(Mismatch)
  {
    if |f.newPassword| < MinLength then Some(TooShort)
    else if f.newPassword != f.confirmPassword then Some(Mismatch)
    else None
  }

  /** `{ email, currentPassword, newPassword }`. */
  function Body(adminEmail: string, f: Inputs): (body: map<string, string>)
    ensures body.Keys == {"email", "currentPassword", "newPassword"}
    ensures body["email"] == adminEmail && body["currentPassword"] == f.currentPassword
    ensures body["newPassword"] == f.newPassword
  {
    map["email" := adminEmail, "currentPassword" := f.currentPassword, "newPassword" := f.newPassword]
  }

  /** The `x-admin-token` header: the stored token, or the text "null" when
      none is stored, since a header value is always converted to text. */
  function HeaderToken(stored: Option<string>): (h: Option<string>)
    ensures h.Some?
    ensures stored.Some? ==> h == stored
    ensures stored.None? ==> h == Some("null")
  {
    Some(stored.GetOr("null"))
  }

  /** `handleSubmit`: a failed check shows its error and sends nothing;
      otherwise the request goes out, and the response either clears the
      form with a success banner or shows the server's error text (or the
      fallback), leaving the inputs as they were. */
  function Submit(p: Panel, adminEmail: string, stored: Option<string>, response: Response)
    : (r: (Panel, Option<Request>))
    ensures Check(p.inputs).Some? ==>
      r.1.None? && r.0 == Panel(p.inputs, Some(Error(Check(p.inputs).value)))
    ensures Check(p.inputs).None? ==>
      r.1 == Some(Request(HeaderToken(stored), Body(adminEmail, p.inputs)))
    ensures Check(p.inputs).None? && response.Answered? && response.ok ==>
      r.0 == Panel(Cleared, Some(Done(Changed)))
    ensures Check(p.inputs).None? && response.Answered? && !response.ok ==>
      r.0 == Panel(p.inputs, Some(Error(EnvOr(response.error, Fallback))))
    ensures Check(p.inputs).None? && response.Thrown? ==>
      r.0 == Panel(p.inputs, Some(Error(response.message)))
    ensures r.0.inputs != p.inputs ==> r.0.inputs == Cleared
  {
    match Check(p.inputs)
    case Some(e) => (Panel(p.inputs, Some(Error(e))), None)
    case None =>
      var req := Request(HeaderToken(stored), Body(adminEmail, p.inputs));
      match response
      case Answered(ok, error) =>
        if ok then (Panel(Cleared, Some(Done(Changed))), Some(req))
        else (Panel(p.inputs, Some(Error(EnvOr(error, Fallback)))), Some(req))
      case Thrown(m) => (Panel(p.inputs, Some(Error(m))), Some(req))
  }

  /** A password the form lets through is never refused as too short by the
      Express servers. */
  lemma {:induction false} FormPreventsTooShort(s: ExpressAdmin.Server, adminEmail: string, f: Inputs, stored: Option<string>)
    requires Check(f).None?
    ensures ExpressAdmin.ChangePassword(s, ExpressAdmin.Request(HeaderToken(stored), None), Body(adminEmail, f)).reply
      != Failure(400, ExpressAdmin.TooShort)
  {
  }

  /** With no token stored, the header still carries the non-empty text
      "null", which the Express servers' presence guard accepts. */
  lemma {:induction false} MissingTokenPassesPresenceGuard()
    ensures ExpressAdmin.Authorized(ExpressAdmin.Request(HeaderToken(None), None))
  {
  }

  /** The serverless handler expects `oldPassword`, which the form never
      sends: every request the form makes there is refused with 400, unless
      an empty token is stored, which is refused with 401 first. */
  lemma {:induction false} ServerlessAlwaysRefusesForm(stored: string, adminEmail: string, f: Inputs, token: Option<string>, freshToken: string)
    ensures var reply := ServerlessChangePassword.Handle(stored, Post, HeaderToken(token), Body(adminEmail, f), freshToken).reply;
      && (token != Some("") ==> reply == Failure(400, ServerlessChangePassword.FieldsRequired))
      && (token == Some("") ==> reply == Failure(401, "Unauthorized"))
  {
    assert "oldPassword" !in Body(adminEmail, f);
  }
}

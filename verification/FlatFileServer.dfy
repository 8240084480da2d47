/** The flat-file Express server: the message file behind the
    non-empty-token guard, and login and change-password with the
    start-up-captured credentials. */
module FlatFileServer {
  import opened Wrappers
  import opened Text
  import opened MessageFile
  import ExpressAdmin

  /** This server's fallback admin password. */
  const DefaultAdminPassword := "admin123"

  /** GET /api/messages: behind the guard, whatever the file holds, as
      stored (a list newest first, or a non-list value as it is). */
  function ListMessages(f: DataFile, req: ExpressAdmin.Request): (r: Reply<Contents>)
    ensures r.Failure? <==> !ExpressAdmin.Authorized(req)
    ensures r.Failure? ==> r == Failure(401, ExpressAdmin.NoToken)
    ensures r.Success? ==> r == Success(200, ReadMessages(f))
  {
    if !ExpressAdmin.Authorized(req) then Failure(401, ExpressAdmin.NoToken)
    else Success(200, ReadMessages(f))
  }

  /** A message posted with a successful write is the first one the next
      authorised listing returns, ahead of everything listed before; over a
      non-list value the post fails and the listing still shows that value. */
  lemma {:induction false} PostThenList(
    f: DataFile, b: ContactBody.MessageBody, nowMs: int, isoNow: string, req: ExpressAdmin.Request)
    requires ContactBody.Complete(b) && ExpressAdmin.Authorized(req)
    ensures var f' := PostMessage(f, b, nowMs, isoNow, true).state;
      && (!f.NotAList? ==>
            ListMessages(f', req) == Success(200, List([NewMessage(b, nowMs, isoNow)] + ReadMessages(f).messages)))
      && (f.NotAList? ==> ListMessages(f', req) == Success(200, Other(f.json)))
  {
    var f' := PostMessage(f, b, nowMs, isoNow, true).state;
    if !f.NotAList? {
      assert ReadMessages(f') == List([NewMessage(b, nowMs, isoNow)] + ReadMessages(f).messages);
    }
  }

  /** With no environment overrides, a successful change-password leaves
      login accepting the fallback password "admin123". */
  lemma {:induction false} FallbackPasswordSurvivesChange(
    req: ExpressAdmin.Request, body: map<string, string>, freshToken: string)
    requires ExpressAdmin.ChangePassword(ExpressAdmin.Start(None, None, DefaultAdminPassword), req, body).reply.Success?
    ensures var s := ExpressAdmin.ChangePassword(ExpressAdmin.Start(None, None, DefaultAdminPassword), req, body).state;
      ExpressAdmin.Login(s, ExpressAdmin.Credentials(Some(ExpressAdmin.DefaultAdminEmail), Some(DefaultAdminPassword)), freshToken).Success?
  {
    var s0 := ExpressAdmin.Start(None, None, DefaultAdminPassword);
    assert s0.config == ExpressAdmin.Config(ExpressAdmin.DefaultAdminEmail, DefaultAdminPassword);
    ExpressAdmin.ChangeNeverReachesLogin(s0, req, body, freshToken);
  }
}

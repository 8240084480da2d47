/** The flat-file Express server that guards the message listing with one
    fixed admin token instead of login. */
module TokenServer {
  import opened Wrappers
  import opened Text
  import opened MessageFile
  import ExpressAdmin

  /** The fallback `ADMIN_TOKEN`. */
  const DefaultAdminToken := "devtoken"

  /** `process.env.ADMIN_TOKEN || 'devtoken'`: never empty. */
  function AdminToken(tokenVar: Option<string>): (t: string)
    ensures t != ""
    ensures Truthy(tokenVar) ==> t == tokenVar.value
    ensures !Truthy(tokenVar) ==> t == DefaultAdminToken
  {
    EnvOr(tokenVar, DefaultAdminToken)
  }

  /** The token a request presents: the `x-admin-token` header when
      non-empty, else the `token` query parameter. */
  function Presented(req: ExpressAdmin.Request): (t: Option<string>)
    ensures Truthy(req.headerToken) ==> t == req.headerToken
    ensures !Truthy(req.headerToken) ==> t == req.queryToken
  {
    FirstTruthy(req.headerToken, req.queryToken)
  }

  /** GET /api/messages: 401 unless the presented token equals the admin
      token exactly; otherwise whatever the file holds, as stored. */
  function ListMessages(f: DataFile, req: ExpressAdmin.Request, tokenVar: Option<string>): (r: Reply<Contents>)
    ensures r.Success? <==> Presented(req) == Some(AdminToken(tokenVar))
    ensures r.Failure? ==> r == Failure(401, "Unauthorized")
    ensures r.Success? ==> r == Success(200, ReadMessages(f))
  {
    var token := Presented(req);
    if !Truthy(token) || token.value != AdminToken(tokenVar) then Failure(401, "Unauthorized")
    else Success(200, ReadMessages(f))
  }

  /** A non-empty wrong header is refused even when the query parameter
      carries the right token. */
  lemma {:induction false} HeaderShadowsQuery(f: DataFile, header: string, tokenVar: Option<string>)
    requires header != "" && header != AdminToken(tokenVar)
    ensures ListMessages(f, ExpressAdmin.Request(Some(header), Some(AdminToken(tokenVar))), tokenVar).Failure?
  {
  }

  /** Unlike the non-empty guard of the other servers, an arbitrary
      non-empty token is not enough. */
  lemma {:induction false} StricterThanPresenceGuard(f: DataFile, token: string)
    requires token != "" && token != DefaultAdminToken
    ensures ExpressAdmin.Authorized(ExpressAdmin.Request(Some(token), None))
    ensures ListMessages(f, ExpressAdmin.Request(Some(token), None), None).Failure?
  {
  }

  /** POST /api/messages here is the same prepend as the other flat-file
      server: after a successful write, a request carrying the admin token
      lists the new message first, ahead of everything listed before; over a
      non-list value the post fails and that value is still what is listed. */
  lemma {:induction false} PostThenList(
    f: DataFile, b: ContactBody.MessageBody, nowMs: int, isoNow: string, tokenVar: Option<string>)
    requires ContactBody.Complete(b)
    ensures var f' := PostMessage(f, b, nowMs, isoNow, true).state;
      var req := ExpressAdmin.Request(Some(AdminToken(tokenVar)), None);
      && (!f.NotAList? ==>
            ListMessages(f', req, tokenVar) == Success(200, List([NewMessage(b, nowMs, isoNow)] + ReadMessages(f).messages)))
      && (f.NotAList? ==> ListMessages(f', req, tokenVar) == Success(200, Other(f.json)))
  {
    var f' := PostMessage(f, b, nowMs, isoNow, true).state;
    if !f.NotAList? {
      assert ReadMessages(f') == List([NewMessage(b, nowMs, isoNow)] + ReadMessages(f).messages);
    }
  }
}

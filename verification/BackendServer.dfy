/** The document-database Express server: contact messages and the project
    collection with create, list, full-replace update and delete, behind the
    non-empty-token guard. */
module BackendServer {
  import opened Wrappers
  import opened Text
  import opened Sorting
  import opened ProjectSchema
  import opened ContactBody
  import ExpressAdmin

  /** This server's fallback admin password. */
  const DefaultAdminPassword := "Shiva@2416"

  const TitleDescriptionRequired := "Title and description are required"
  const NotFound := "Project not found"

  /** With no environment overrides this server's login accepts the shared
      email with "Shiva@2416", and nothing else. */
  lemma {:induction false} FallbackLogin(c: ExpressAdmin.Credentials, freshToken: string)
    ensures var s := ExpressAdmin.Start(None, None, DefaultAdminPassword);
      ExpressAdmin.Login(s, c, freshToken).Success? <==>
        c == ExpressAdmin.Credentials(Some(ExpressAdmin.DefaultAdminEmail), Some("Shiva@2416"))
  {
  }

  /** A stored contact message. */
  datatype Message = Message(id: string, name: string, email: string, message: string, createdAt: int)

  /** POST /api/messages: a complete body is stored with a fresh id and
      time; an incomplete one is refused and nothing is stored. */
  function PostMessage(msgs: seq<Message>, b: MessageBody, newId: string, now: int): (o: Outcome<string, seq<Message>>)
    ensures !Complete(b) <==> o.reply == Failure(400, FieldsRequired)
    ensures !Complete(b) ==> o.state == msgs
    ensures Complete(b) ==>
      && o.reply.status == 201
      && o.state == msgs + [Message(newId, b.name.value, b.email.value, b.message.value, now)]
  {
    if !Complete(b) then Outcome(Failure(400, FieldsRequired), msgs)
    else Outcome(Success(201, "Message saved"), msgs + [Message(newId, b.name.value, b.email.value, b.message.value, now)])
  }

  /** GET /api/messages: behind the guard, every message, newest first. */
  function ListMessages(msgs: seq<Message>, req: ExpressAdmin.Request): (r: Reply<seq<Message>>)
    ensures !ExpressAdmin.Authorized(req) <==> r == Failure(401, ExpressAdmin.NoToken)
    ensures r.Success? ==> r.status == 200 && multiset(r.value) == multiset(msgs)
    ensures r.Success? ==> forall i, j :: 0 <= i < j < |r.value| ==> r.value[i].createdAt >= r.value[j].createdAt
  {
    if !ExpressAdmin.Authorized(req) then Failure(401, ExpressAdmin.NoToken)
    else Success(200, SortNewestFirst(msgs, (m: Message) => m.createdAt))
  }

  /** A posted message is in the next authorised listing, alongside every
      earlier one; when the clock has moved past every earlier message, it
      heads the listing. */
  lemma {:induction false} PostThenList(msgs: seq<Message>, b: MessageBody, newId: string, now: int, req: ExpressAdmin.Request)
    requires Complete(b) && ExpressAdmin.Authorized(req)
    ensures var m := Message(newId, b.name.value, b.email.value, b.message.value, now);
      var r := ListMessages(PostMessage(msgs, b, newId, now).state, req);
      && r.Success?
      && multiset(r.value) == multiset(msgs) + multiset{m}
      && ((forall x | x in msgs :: x.createdAt < now) ==> r.value[0] == m)
  {
    var m := Message(newId, b.name.value, b.email.value, b.message.value, now);
    var r := ListMessages(PostMessage(msgs, b, newId, now).state, req);
    assert multiset(msgs + [m]) == multiset(msgs) + multiset{m};
    if forall x | x in msgs :: x.createdAt < now {
      assert m in multiset(r.value);
      var j :| 0 <= j < |r.value| && r.value[j] == m;
      assert r.value[0].createdAt >= now;
      assert r.value[0] in multiset(msgs) + multiset{m};
    }
  }

  /** POST /api/projects: guard, the handler's required-field check, the
      schema's validation (a failed save answers 500), then the document is
      appended with the database's fresh `_id` and the current time. */
  function CreateProject(ps: seq<Project>, req: ExpressAdmin.Request, b: Body, newId: string, now: int)
    : (o: Outcome<Project, seq<Project>>)
    requires newId !in Ids(ps)
    ensures o.reply.Failure? ==> o.state == ps
    ensures !ExpressAdmin.Authorized(req) ==> o.reply == Failure(401, ExpressAdmin.NoToken)
    ensures ExpressAdmin.Authorized(req) && !HasRequired(b) ==> o.reply == Failure(400, TitleDescriptionRequired)
    ensures ExpressAdmin.Authorized(req) && HasRequired(b) && !Accepted(b) ==> o.reply == Failure(500, ServerError)
    ensures o.reply.Success? <==>
      ExpressAdmin.Authorized(req) && Accepted(b)
    ensures o.reply.Success? ==>
      && o.reply.status == 201
      && o.state == ps + [o.reply.value]
      && o.reply.value.id == newId && o.reply.value.createdAt == now
      && FieldsOf(o.reply.value) == Stored(b)
    ensures ValidStore(ps) ==> ValidStore(o.state)
  {
    if !ExpressAdmin.Authorized(req) then Outcome(Failure(401, ExpressAdmin.NoToken), ps)
    else if !HasRequired(b) then Outcome(Failure(400, TitleDescriptionRequired), ps)
    else
      match Validate(WithDefaults(b))
      case None => Outcome(Failure(500, ServerError), ps)
      case Some(f) =>
        var p := NewDocument(newId, f, now);
        assert ValidStore(ps) ==> ValidStore(ps + [p]) by {
          if ValidStore(ps) { AppendKeepsValid(ps, p); }
        }
        Outcome(Success(201, p), ps + [p])
  }

  /** PUT /api/projects/:id: a full replace. The body is validated before
      the `_id` is looked up; an unknown `_id` answers 404; on success every
      mutable field is overwritten (absent optionals reset to their
      defaults) and every other project is untouched. */
  function UpdateProject(ps: seq<Project>, req: ExpressAdmin.Request, id: string, b: Body)
    : (o: Outcome<Project, seq<Project>>)
    ensures o.reply.Failure? ==> o.state == ps
    ensures !ExpressAdmin.Authorized(req) ==> o.reply == Failure(401, ExpressAdmin.NoToken)
    ensures ExpressAdmin.Authorized(req) && !HasRequired(b) ==> o.reply == Failure(400, TitleDescriptionRequired)
    ensures ExpressAdmin.Authorized(req) && HasRequired(b) && !Accepted(b) ==> o.reply == Failure(500, ServerError)
    ensures ExpressAdmin.Authorized(req) && Accepted(b) && id !in Ids(ps)
      ==> o.reply == Failure(404, NotFound)
    ensures o.reply.Success? <==>
      ExpressAdmin.Authorized(req) && Accepted(b) && id in Ids(ps)
    ensures o.reply.Success? ==>
      && o.reply.status == 200
      && |o.state| == |ps|
      && o.reply.value.id == id
      && FieldsOf(o.reply.value) == Stored(b)
      && o.reply.value in o.state
      && (forall i :: 0 <= i < |ps| && ps[i].id != id ==> o.state[i] == ps[i])
      && (forall i :: 0 <= i < |ps| && ps[i].id == id ==> o.state[i].createdAt == ps[i].createdAt)
    ensures ValidStore(ps) ==> ValidStore(o.state)
  {
    if !ExpressAdmin.Authorized(req) then Outcome(Failure(401, ExpressAdmin.NoToken), ps)
    else if !HasRequired(b) then Outcome(Failure(400, TitleDescriptionRequired), ps)
    else
      match Validate(WithDefaults(b))
      case None => Outcome(Failure(500, ServerError), ps)
      case Some(f) =>
        match IndexOf(ps, id)
        case None => Outcome(Failure(404, NotFound), ps)
        case Some(k) =>
          var r := ReplaceAt(ps, k, f);
          assert ValidStore(ps) ==> ValidStore(r) by {
            if ValidStore(ps) { ReplaceKeepsValid(ps, k, f); }
          }
          ReplaceTarget(ps, k, f, id);
          Outcome(Success(200, r[k]), r)
  }

  /** DELETE /api/projects/:id: removes exactly the document with that
      `_id`; an unknown `_id` answers 404 and nothing changes. */
  function DeleteProject(ps: seq<Project>, req: ExpressAdmin.Request, id: string): (o: Outcome<string, seq<Project>>)
    ensures o.reply.Failure? ==> o.state == ps
    ensures !ExpressAdmin.Authorized(req) ==> o.reply == Failure(401, ExpressAdmin.NoToken)
    ensures ExpressAdmin.Authorized(req) && id !in Ids(ps) ==> o.reply == Failure(404, NotFound)
    ensures o.reply.Success? <==> ExpressAdmin.Authorized(req) && id in Ids(ps)
    ensures o.reply.Success? ==> o.reply.status == 200 && |o.state| == |ps| - 1
    ensures o.reply.Success? && ValidStore(ps) ==>
      && ValidStore(o.state)
      && Ids(o.state) == Ids(ps) - {id}
      && (forall p :: p in o.state <==> p in ps && p.id != id)
  {
    if !ExpressAdmin.Authorized(req) then Outcome(Failure(401, ExpressAdmin.NoToken), ps)
    else
      match IndexOf(ps, id)
      case None => Outcome(Failure(404, NotFound), ps)
      case Some(k) =>
        var r := RemoveAt(ps, k);
        if ValidStore(ps) then
          RemoveKeepsValid(ps, k);
          RemoveExactlyTarget(ps, k);
          Outcome(Success(200, "Project deleted"), r)
        else
          Outcome(Success(200, "Project deleted"), r)
  }

  /** Removing position `k` of a store with unique `_id`s drops exactly the
      documents carrying that `_id`. */
  lemma {:induction false} RemoveExactlyTarget(ps: seq<Project>, k: nat)
    requires ValidStore(ps) && k < |ps|
    ensures forall p :: p in RemoveAt(ps, k) <==> p in ps && p.id != ps[k].id
  {
    var r := RemoveAt(ps, k);
    forall p
      ensures p in r <==> p in ps && p.id != ps[k].id
    {
      if p in r {
        var i :| 0 <= i < |r| && r[i] == p;
        if i < k { assert ps[i] == p; } else { assert ps[i + 1] == p; }
      }
      if p in ps && p.id != ps[k].id {
        var i :| 0 <= i < |ps| && ps[i] == p;
        if i < k { assert r[i] == p; } else { assert i != k; assert r[i - 1] == p; }
      }
    }
  }

  /** Deleting a project just created restores the collection. */
  lemma {:induction false} CreateThenDeleteRestores(
    ps: seq<Project>, req: ExpressAdmin.Request, b: Body, newId: string, now: int)
    requires newId !in Ids(ps)
    requires CreateProject(ps, req, b, newId, now).reply.Success?
    ensures DeleteProject(CreateProject(ps, req, b, newId, now).state, req, newId).state == ps
  {
    var o := CreateProject(ps, req, b, newId, now);
    var created := o.state;
    assert created == ps + [o.reply.value];
    assert created[|ps|].id == newId;
    var k := IndexOf(created, newId).value;
    assert k == |ps|;
    assert RemoveAt(created, |ps|) == ps;
  }

  /** A second delete of the same `_id` finds nothing. */
  lemma {:induction false} DeleteTwiceNotFound(ps: seq<Project>, req: ExpressAdmin.Request, id: string)
    requires ValidStore(ps)
    requires DeleteProject(ps, req, id).reply.Success?
    ensures DeleteProject(DeleteProject(ps, req, id).state, req, id).reply == Failure(404, NotFound)
  {
  }
}

/** The serverless project handler: a public newest-first listing and an
    authenticated create; every other method is refused. */
module ServerlessProjects {
  import opened Wrappers
  import opened Text
  import opened ProjectSchema

  const Unauthorized := "Unauthorized"
  const TitleDescriptionRequired := "Title and description are required"
  const MethodNotAllowed := "Method not allowed"

  /** The success payloads: the listing, or `{ ok: true, project }`. */
  datatype Answer = Listing(projects: seq<Project>) | Created(project: Project)

  /** The handler for /api/projects. GET needs no token; POST checks the
      `x-admin-token` header before it looks at the body. */
  function Handle(ps: seq<Project>, verb: Method, headerToken: Option<string>, b: Body, newId: string, now: int)
    : (o: Outcome<Answer, seq<Project>>)
    requires newId !in Ids(ps)
    ensures o.reply.Failure? ==> o.state == ps
    ensures verb == Get ==>
      && o.state == ps && o.reply.Success? && o.reply.status == 200
      && o.reply.value.Listing?
      && multiset(o.reply.value.projects) == multiset(ps)
      && (forall i, j :: 0 <= i < j < |o.reply.value.projects| ==>
            o.reply.value.projects[i].createdAt >= o.reply.value.projects[j].createdAt)
    ensures verb !in {Get, Post} ==> o.reply == Failure(405, MethodNotAllowed)
    ensures verb == Post && !Truthy(headerToken) ==> o.reply == Failure(401, Unauthorized)
    ensures verb == Post && Truthy(headerToken) && !HasRequired(b) ==> o.reply == Failure(400, TitleDescriptionRequired)
    ensures verb == Post && Truthy(headerToken) && HasRequired(b) && !Accepted(b) ==> o.reply == Failure(500, ServerError)
    ensures verb == Post ==>
      (o.reply.Success? <==> Truthy(headerToken) && Accepted(b))
    ensures verb == Post && o.reply.Success? ==>
      && o.reply.status == 201
      && o.reply.value.Created?
      && o.state == ps + [o.reply.value.project]
      && o.reply.value.project.id == newId && o.reply.value.project.createdAt == now
      && FieldsOf(o.reply.value.project) == Stored(b)
    ensures ValidStore(ps) ==> ValidStore(o.state)
  {
    match verb
    case Get => Outcome(Success(200, Listing(ByNewest(ps))), ps)
    case Post =>
      if !Truthy(headerToken) then Outcome(Failure(401, Unauthorized), ps)
      else if !HasRequired(b) then Outcome(Failure(400, TitleDescriptionRequired), ps)
      else (
        match Validate(WithDefaults(b))
        case None => Outcome(Failure(500, ServerError), ps)
        case Some(f) =>
          var p := NewDocument(newId, f, now);
          assert ValidStore(ps) ==> ValidStore(ps + [p]) by {
            if ValidStore(ps) { AppendKeepsValid(ps, p); }
          }
          Outcome(Success(201, Created(p)), ps + [p]))
    case _ => Outcome(Failure(405, MethodNotAllowed), ps)
  }

  /** A body with only a title and a description creates a project whose
      image and links are empty, whose tag list is empty and which is not
      featured. */
  lemma {:induction false} MinimalBodyGetsDefaults(ps: seq<Project>, token: string, title: string, description: string, newId: string, now: int)
    requires newId !in Ids(ps) && token != "" && Trimmed(title) && title != "" && description != ""
    ensures var o := Handle(ps, Post, Some(token), Body(Some(title), Some(description), None, None, None, None, None), newId, now);
      o.reply == Success(201, Created(Project(newId, title, description, "", "", "", [], false, now)))
  {
    TrimOfTrimmed(title);
  }
}

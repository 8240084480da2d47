/** The admin project editor: loading the listing, routing a save to an
    edit or a create, deleting, the image upload guards, the tag text of the
    form, and the one-time move of a browser-cached project list to the
    server. */
module ProjectsManager {
  import opened Wrappers
  import opened Text
  import opened ProjectSchema
  import ProjectsView
  import ExpressAdmin
  import BackendServer

  /** Largest accepted upload, in bytes (1 MiB). */
  const MaxFileBytes := 1024 * 1024

  /** Largest accepted data URL, in characters (2 MiB). */
  const MaxEncodedLength := 2 * 1024 * 1024

  const LoginFirst := "Please login first"
  const FileTooLarge := "Image size should be less than 1MB. Please compress your image or use an image URL instead."
  const NotAnImage := "Please select an image file"
  const EncodedTooLarge := "Encoded image too large. Please use a smaller image or paste an image URL instead."

  /** A project as the editor holds and sends it: the JSON object seen
      through its `id` property, the mutable fields, and `createdAt`. */
  datatype Card = Card(id: Option<string>, fields: Fields, createdAt: Option<int>)

  /** The editor form; the tags are one comma-separated text. */
  datatype Form = Form(
    title: string,
    description: string,
    image: string,
    liveLink: string,
    githubLink: string,
    technologies: string,
    featured: bool)

  /** The form after `resetForm`. */
  const EmptyForm := Form("", "", "", "", "", "", false)

  /** The form, its image preview, and the project being edited. */
  datatype Editor = Editor(form: Form, preview: string, editing: Option<Card>, showForm: bool)

  /** A request the editor sends with its `x-admin-token` header. */
  datatype Request = Request(verb: Method, url: string, body: Option<Card>)

  // ---------------------------------------------------------------------
  // Loading

  /** A listed document as this component sees it: the listing carries
      `_id` only, which is never copied to `id`. */
  function Listed(p: Project): (c: Card)
    ensures c.id.None? && c.fields == FieldsOf(p) && c.createdAt == Some(p.createdAt)
  {
    Card(None, FieldsOf(p), Some(p.createdAt))
  }

  /** `loadProjects`: an ok listing replaces the cards in listing order; a
      failed or non-ok fetch (None) leaves them as they were. */
  function Load(cards: seq<Card>, listing: Option<seq<Project>>): (r: seq<Card>)
    ensures listing.None? ==> r == cards
    ensures listing.Some? ==>
      && |r| == |listing.value|
      && forall i :: 0 <= i < |r| ==> r[i] == Listed(listing.value[i])
  {
    match listing
    case None => cards
    case Some(ps) => seq(|ps|, i requires 0 <= i < |ps| => Listed(ps[i]))
  }

  /** The load the save routing needs: `_id` copied to `id`, as the public
      project list does. */
  function LoadWithIds(cards: seq<Card>, listing: Option<seq<Project>>): (r: seq<Card>)
    ensures listing.None? ==> r == cards
    ensures listing.Some? ==>
      && |r| == |listing.value|
      && forall i :: 0 <= i < |r| ==> r[i] == Listed(listing.value[i]).(id := Some(listing.value[i].id))
  {
    match listing
    case None => cards
    case Some(ps) => seq(|ps|, i requires 0 <= i < |ps| => Listed(ps[i]).(id := Some(ps[i].id)))
  }

  // ---------------------------------------------------------------------
  // Saving and deleting

  /** Some loaded card carries this `id`. */
  predicate Known(cards: seq<Card>, id: string) {
    exists i :: 0 <= i < |cards| && cards[i].id == Some(id)
  }

  /** `saveProject`'s request: nothing without a stored token; a PUT to the
      project's own URL when its `id` is non-empty and matches a loaded card;
      otherwise a POST to the collection. */
  function SaveRequest(cards: seq<Card>, data: Card, token: Option<string>): (r: Option<Request>)
    ensures r.None? <==> !Truthy(token)
    ensures r.Some? ==> r.value.body == Some(data)
    ensures r.Some? ==>
      (r.value.verb == Put <==> Truthy(data.id) && Known(cards, data.id.value))
    ensures r.Some? && r.value.verb == Put ==> r.value.url == "/api/projects/" + data.id.value
    ensures r.Some? && r.value.verb != Put ==> r.value == Request(Post, "/api/projects", Some(data))
  {
    if !Truthy(token) then None
    else if Truthy(data.id) && Known(cards, data.id.value) then
      Some(Request(Put, "/api/projects/" + data.id.value, Some(data)))
    else
      Some(Request(Post, "/api/projects", Some(data)))
  }

  /** How a template literal prints a possibly-undefined id. */
  function IdText(id: Option<string>): string {
    id.GetOr("undefined")
  }

  /** `deleteProject`'s request: nothing without a stored token, otherwise a
      DELETE of the card's URL. */
  function DeleteRequest(id: Option<string>, token: Option<string>): (r: Option<Request>)
    ensures r.None? <==> !Truthy(token)
    ensures r.Some? ==> r.value.verb == Delete && r.value.body.None?
    ensures r.Some? && id.Some? ==> r.value.url == "/api/projects/" + id.value
    ensures r.Some? && id.None? ==> r.value.url == "/api/projects/undefined"
  {
    if !Truthy(token) then None
    else Some(Request(Delete, "/api/projects/" + IdText(id), None))
  }

  /** The editor after a save: a successful one resets the form and closes
      it, a failed one leaves everything as it was. */
  function AfterSave(e: Editor, saved: bool): (r: Editor)
    ensures saved ==> r == Editor(EmptyForm, "", None, false)
    ensures !saved ==> r == e
  {
    if saved then Editor(EmptyForm, "", None, false) else e
  }

  /** How a save or delete fetch ended: an ok answer; a non-ok answer whose
      JSON body carried `error` (None when it had none); or a throw, from the
      network or from a body that is not JSON, with its message. */
  datatype Answer = Ok | Refused(error: Option<string>) | Threw(message: string)

  /** The editor after an answer: its list, the window event it dispatched,
      the alert it raised, and what the returned promise resolves to. */
  datatype Settled = Settled(cards: seq<Card>, event: Option<ProjectsView.Event>, alert: Option<string>, success: bool)

  const SaveFailed := "Failed to save project"
  const DeleteFailed := "Failed to delete project"

  /** `saveProject` once its request is answered; `listing` is what the
      reload after an ok answer fetched. Only an ok answer reloads and
      announces `projectsUpdated`; every other ending raises an alert and
      leaves the list alone. */
  function SaveSettled(cards: seq<Card>, token: Option<string>, answer: Answer, listing: Option<seq<Project>>): (r: Settled)
    ensures r.success <==> Truthy(token) && answer.Ok?
    ensures r.success ==> r.cards == Load(cards, listing) && r.event == Some(ProjectsView.ProjectsUpdated) && r.alert.None?
    ensures !r.success ==> r.cards == cards && r.event.None? && r.alert.Some?
    ensures !Truthy(token) ==> r.alert == Some(LoginFirst)
    ensures Truthy(token) && answer.Refused? ==> r.alert == Some(EnvOr(answer.error, SaveFailed))
    ensures Truthy(token) && answer.Threw? ==> r.alert == Some(SaveFailed + ": " + answer.message)
  {
    if !Truthy(token) then Settled(cards, None, Some(LoginFirst), false)
    else
      match answer
      case Ok => Settled(Load(cards, listing), Some(ProjectsView.ProjectsUpdated), None, true)
      case Refused(e) => Settled(cards, None, Some(EnvOr(e, SaveFailed)), false)
      case Threw(m) => Settled(cards, None, Some(SaveFailed + ": " + m), false)
  }

  /** `deleteProject` once its request is answered: as for a save, except
      that a throw raises the plain failure text. */
  function DeleteSettled(cards: seq<Card>, token: Option<string>, answer: Answer, listing: Option<seq<Project>>): (r: Settled)
    ensures r.success <==> Truthy(token) && answer.Ok?
    ensures r.success ==> r.cards == Load(cards, listing) && r.event == Some(ProjectsView.ProjectsUpdated) && r.alert.None?
    ensures !r.success ==> r.cards == cards && r.event.None? && r.alert.Some?
    ensures !Truthy(token) ==> r.alert == Some(LoginFirst)
    ensures Truthy(token) && answer.Refused? ==> r.alert == Some(EnvOr(answer.error, DeleteFailed))
    ensures Truthy(token) && answer.Threw? ==> r.alert == Some(DeleteFailed)
  {
    if !Truthy(token) then Settled(cards, None, Some(LoginFirst), false)
    else
      match answer
      case Ok => Settled(Load(cards, listing), Some(ProjectsView.ProjectsUpdated), None, true)
      case Refused(e) => Settled(cards, None, Some(EnvOr(e, DeleteFailed)), false)
      case Threw(_) => Settled(cards, None, Some(DeleteFailed), false)
  }

  /** After a successful save or delete, the public project list hears the
      event the editor dispatched and reloads the same listing the editor
      reloaded, whatever it showed before; `ReloadMatchesPublicList` says
      the two then hold the same projects. */
  lemma {:induction false} ChangeReachesPublicList(
    deleting: bool, cards: seq<Card>, token: Option<string>, ps: seq<Project>, shown: seq<ProjectsView.Entry>)
    requires Truthy(token)
    ensures var r := if deleting then DeleteSettled(cards, token, Ok, Some(ps)) else SaveSettled(cards, token, Ok, Some(ps));
      && r.success && r.event.Some?
      && r.cards == Load(cards, Some(ps))
      && ProjectsView.OnServerEvent(shown, r.event.value, Some(ps)) == ProjectsView.LoadFromServer([], Some(ps))
  {
  }

  /** The editor's reload and the public list's reload of the same listing
      hold the same projects. */
  lemma {:induction false} ReloadMatchesPublicList(cards: seq<Card>, ps: seq<Project>)
    ensures var mine := Load(cards, Some(ps));
      var theirs := ProjectsView.LoadFromServer([], Some(ps));
      && |mine| == |ps|
      && (forall i :: 0 <= i < |ps| ==>
            ProjectsView.Entry(ps[i].id, mine[i].fields, mine[i].createdAt.value) in theirs)
      && (forall e | e in theirs ::
            (exists i :: 0 <= i < |ps| && e.fields == mine[i].fields && Some(e.createdAt) == mine[i].createdAt))
  {
    var mine := Load(cards, Some(ps));
    var theirs := ProjectsView.LoadFromServer([], Some(ps));
    forall i | 0 <= i < |ps|
      ensures ProjectsView.Entry(ps[i].id, mine[i].fields, mine[i].createdAt.value) in theirs
    {
      assert ProjectsView.WithId(ps[i]) == ProjectsView.Entry(ps[i].id, mine[i].fields, mine[i].createdAt.value);
      ProjectsView.ShownAreListed(ps, ProjectsView.WithId(ps[i]));
    }
    forall e | e in theirs
      ensures exists i :: 0 <= i < |ps| && e.fields == mine[i].fields && Some(e.createdAt) == mine[i].createdAt
    {
      ProjectsView.ShownAreListed(ps, e);
      var i :| 0 <= i < |ps| && ProjectsView.WithId(ps[i]) == e;
      assert e.fields == mine[i].fields && Some(e.createdAt) == mine[i].createdAt;
    }
  }

  // ---------------------------------------------------------------------
  // Tags

  /** Trims every piece and drops the ones left empty, keeping the order. */
  function Clean(pieces: seq<string>): (r: seq<string>)
    ensures |r| <= |pieces|
    ensures forall t | t in r :: t != "" && Trimmed(t)
  {
    if pieces == [] then []
    else
      var head := Trim(pieces[0]);
      if head == "" then Clean(pieces[1..]) else [head] + Clean(pieces[1..])
  }

  /** Cleaning never introduces a character. */
  lemma {:induction false} CleanKeepsOut(pieces: seq<string>, c: char)
    requires forall p | p in pieces :: c !in p
    ensures forall t | t in Clean(pieces) :: c !in t
  {
    if pieces != [] {
      CleanKeepsOut(pieces[1..], c);
      TrimKeepsOut(pieces[0], c);
    }
  }

  /** A tag the form can carry unchanged. */
  predicate CleanTag(t: string) {
    t != "" && Trimmed(t) && ',' !in t
  }

  /** The form's tag text as `handleSubmit` turns it into a list. */
  function ParseTags(s: string): (r: seq<string>)
    ensures forall t | t in r :: CleanTag(t)
  {
    CleanKeepsOut(Split(s, ','), ',');
    Clean(Split(s, ','))
  }

  /** The tag list as `handleEdit` puts it into the form. */
  function JoinTags(tags: seq<string>): string {
    Join(tags, ", ")
  }

  /** Text without a comma is a single tag, or none if it is blank. */
  lemma {:induction false} ParseSingle(s: string)
    requires ',' !in s
    ensures ParseTags(s) == (if Trim(s) == "" then [] else [Trim(s)])
  {
    SplitWithoutSeparator(s, ',');
  }

  /** One unfolding of `Clean`. */
  lemma {:induction false} CleanCons(x: string, rest: seq<string>)
    ensures Clean([x] + rest) == (if Trim(x) == "" then [] else [Trim(x)]) + Clean(rest)
  {
    assert ([x] + rest)[1..] == rest;
  }

  /** A space after a comma never reaches a tag. */
  lemma {:induction false} CleanSplitLeadingSpace(s: string)
    ensures Clean(Split(" " + s, ',')) == Clean(Split(s, ','))
  {
    var rest := Split(s, ',');
    var head := [' '] + rest[0];
    var tail := rest[1..];
    SplitCons(' ', s, ',');
    assert Split(" " + s, ',') == [head] + tail;
    TrimLeadingSpace(' ', rest[0]);
    CleanCons(head, tail);
    CleanCons(rest[0], tail);
    assert [rest[0]] + tail == rest;
  }

  /** A clean tag followed by ", " parses to that tag and then whatever
      the rest of the text parses to. */
  lemma {:induction false} ParseAfterFirstTag(t: string, rest: string)
    requires CleanTag(t)
    ensures ParseTags(t + ", " + rest) == [t] + ParseTags(rest)
  {
    assert t + ", " + rest == t + [','] + (" " + rest);
    SplitAtFirstSeparator(t, ',', " " + rest);
    CleanSplitLeadingSpace(rest);
    TrimOfTrimmed(t);
    CleanCons(t, Split(" " + rest, ','));
  }

  /** Joining clean tags with ", " and parsing the text gives the tags back. */
  lemma {:induction false} ParseJoinTags(tags: seq<string>)
    requires forall t | t in tags :: CleanTag(t)
    ensures ParseTags(JoinTags(tags)) == tags
  {
    if |tags| == 0 {
      CleanCons("", []);
    } else if |tags| == 1 {
      assert tags[0] in tags;
      ParseSingle(tags[0]);
      TrimOfTrimmed(tags[0]);
    } else {
      assert JoinTags(tags) == tags[0] + ", " + JoinTags(tags[1..]);
      assert tags[0] in tags;
      ParseAfterFirstTag(tags[0], JoinTags(tags[1..]));
      assert forall t | t in tags[1..] :: t in tags;
      ParseJoinTags(tags[1..]);
      assert [tags[0]] + tags[1..] == tags;
    }
  }

  // ---------------------------------------------------------------------
  // Form round trip

  /** `handleEdit`: the form shows the card's fields and its tags joined
      with ", ". */
  function EditForm(c: Card): (f: Form)
    ensures f.technologies == JoinTags(c.fields.technologies)
  {
    Form(c.fields.title, c.fields.description, c.fields.image, c.fields.liveLink,
         c.fields.githubLink, JoinTags(c.fields.technologies), c.fields.featured)
  }

  /** `handleSubmit`: the form's fields, its tag text parsed, and the `id`
      and `createdAt` of the project being edited (absent for a new one). */
  function SubmitData(editing: Option<Card>, f: Form): (c: Card)
    ensures editing.None? ==> c.id.None? && c.createdAt.None?
    ensures editing.Some? ==> c.id == editing.value.id && c.createdAt == editing.value.createdAt
    ensures c.fields.technologies == ParseTags(f.technologies)
    ensures c.fields.(technologies := []) == Fields(f.title, f.description, f.image, f.liveLink, f.githubLink, [], f.featured)
  {
    var fields := Fields(f.title, f.description, f.image, f.liveLink, f.githubLink, ParseTags(f.technologies), f.featured);
    match editing
    case None => Card(None, fields, None)
    case Some(e) => Card(e.id, fields, e.createdAt)
  }

  /** Opening a card in the editor and submitting the untouched form sends
      the card back as it was, whenever its tags are clean. */
  lemma {:induction false} EditThenSubmit(c: Card)
    requires forall t | t in c.fields.technologies :: CleanTag(t)
    ensures SubmitData(Some(c), EditForm(c)) == c
  {
    ParseJoinTags(c.fields.technologies);
  }

  // ---------------------------------------------------------------------
  // Image upload

  /** What the file picker reports about the chosen file. */
  datatype FileInfo = FileInfo(size: int, mimeType: string)

  /** An editor event's effect and the alert it raises, if any. */
  datatype Handled = Handled(editor: Editor, alert: Option<string>)

  /** The file passes the checks made before it is read. */
  predicate FileAccepted(file: FileInfo) {
    file.size <= MaxFileBytes && StartsWith(file.mimeType, "image/")
  }

  /** `handleImageChange`: with no file nothing happens; a file over 1 MiB,
      or whose type does not start with "image/", or whose data URL is over
      2 MiB raises an alert and changes nothing; otherwise the data URL
      becomes the form's image and the preview. */
  function ImageChange(e: Editor, file: Option<FileInfo>, encoded: string): (h: Handled)
    ensures file.None? ==> h == Handled(e, None)
    ensures h.editor != e ==> h.alert.None?
    ensures h.alert.None? <==>
      file.None? || (FileAccepted(file.value) && |encoded| <= MaxEncodedLength)
    ensures file.Some? && h.alert.None? ==>
      h.editor == e.(form := e.form.(image := encoded), preview := encoded)
    ensures h.alert.Some? ==> h.editor == e
    ensures file.Some? && file.value.size > MaxFileBytes ==> h.alert == Some(FileTooLarge)
    ensures file.Some? && file.value.size <= MaxFileBytes && !StartsWith(file.value.mimeType, "image/")
      ==> h.alert == Some(NotAnImage)
    ensures file.Some? && FileAccepted(file.value) && |encoded| > MaxEncodedLength
      ==> h.alert == Some(EncodedTooLarge)
  {
    match file
    case None => Handled(e, None)
    case Some(f) =>
      if f.size > MaxFileBytes then Handled(e, Some(FileTooLarge))
      else if !StartsWith(f.mimeType, "image/") then Handled(e, Some(NotAnImage))
      else if |encoded| > MaxEncodedLength then Handled(e, Some(EncodedTooLarge))
      else
        Handled(e.(form := e.form.(image := encoded), preview := encoded), None)
  }

  /** An accepted image is what the next submit sends, with every other
      field unchanged; a rejected one leaves the submitted project exactly as
      it would have been. */
  lemma {:induction false} ImageThenSubmit(e: Editor, file: FileInfo, encoded: string)
    ensures var h := ImageChange(e, Some(file), encoded);
      var before := SubmitData(e.editing, e.form);
      var after := SubmitData(h.editor.editing, h.editor.form);
      && (FileAccepted(file) && |encoded| <= MaxEncodedLength ==>
            after == before.(fields := before.fields.(image := encoded)) && h.editor.preview == encoded)
      && (!FileAccepted(file) || |encoded| > MaxEncodedLength ==> after == before)
  {
  }

  // ---------------------------------------------------------------------
  // Migration

  /** The `portfolioProjects` entry: absent (or empty), not valid JSON, or
      a parsed list. */
  datatype Cache = Absent | Garbled | Parsed(items: seq<Card>)

  /** What one `fetch` of the migration does: resolve with any status, or
      throw. */
  datatype Fetch = Responded(status: int) | NetworkFailure

  /** The migration runs only for a parsed, non-empty list and a stored token. */
  predicate Engaged(cache: Cache, token: Option<string>) {
    cache.Parsed? && |cache.items| > 0 && Truthy(token)
  }

  /** `migrateLocalStorageProjects`: POSTs the cached projects one after the
      other, in cache order. `net(i)` is what the i-th request does. The
      cache is removed, and the list reloaded, once every request has
      resolved, whatever statuses came back; a thrown request stops the loop
      and leaves the whole cache in place. */
  method Migrate(cache: Cache, token: Option<string>, net: nat -> Fetch)
    returns (posted: seq<Card>, after: Cache, reloaded: bool)
    ensures !Engaged(cache, token) ==> posted == [] && after == cache && !reloaded
    ensures Engaged(cache, token) ==>
      1 <= |posted| <= |cache.items| && posted == cache.items[..|posted|]
    ensures reloaded <==>
      Engaged(cache, token) && forall i :: 0 <= i < |cache.items| ==> net(i).Responded?
    ensures reloaded ==> posted == cache.items && after == Absent
    ensures !reloaded ==> after == cache
    ensures Engaged(cache, token) && !reloaded ==>
      net(|posted| - 1).NetworkFailure? && forall i :: 0 <= i < |posted| - 1 ==> net(i).Responded?
  {
    posted, after, reloaded := [], cache, false;
    if !Engaged(cache, token) {
      return;
    }
    var items := cache.items;
    var i := 0;
    while i < |items|
      invariant 0 <= i <= |items|
      invariant posted == items[..i]
      invariant forall j :: 0 <= j < i ==> net(j).Responded?
    {
      posted := posted + [items[i]];
      if net(i).NetworkFailure? {
        assert posted == items[..i + 1];
        return;
      }
      i := i + 1;
    }
    assert posted == items;
    after, reloaded := Absent, true;
  }

  // ---------------------------------------------------------------------
  // Routing of edits, as written and as intended

  /** Every save from a server-loaded list is a create: no loaded card has
      an `id`, so an edited project is POSTed as a new one. */
  lemma {:induction false} EditOfListedProjectIsPost(ps: seq<Project>, k: nat, e: Editor, token: string)
    requires k < |ps| && token != ""
    ensures var cards := Load([], Some(ps));
      var data := SubmitData(Some(cards[k]), e.form);
      SaveRequest(cards, data, Some(token)) == Some(Request(Post, "/api/projects", Some(data)))
  {
  }

  /** With `_id` copied to `id`, saving an edited project is a PUT to that
      project's URL. */
  lemma {:induction false} EditOfMappedProjectIsPut(ps: seq<Project>, k: nat, e: Editor, token: string)
    requires k < |ps| && token != "" && ps[k].id != ""
    ensures var cards := LoadWithIds([], Some(ps));
      var data := SubmitData(Some(cards[k]), e.form);
      SaveRequest(cards, data, Some(token)) == Some(Request(Put, "/api/projects/" + ps[k].id, Some(data)))
  {
    MappedCardKnown(ps, k);
  }

  /** A card loaded with ids carries its project's `_id` and is known. */
  lemma {:induction false} MappedCardKnown(ps: seq<Project>, k: nat)
    requires k < |ps|
    ensures var cards := LoadWithIds([], Some(ps));
      k < |cards| && cards[k].id == Some(ps[k].id) && Known(cards, ps[k].id)
  {
    var cards := LoadWithIds([], Some(ps));
    assert cards[k].id == Some(ps[k].id);
  }

  /** Deleting a card from a server-loaded list asks for
      `/api/projects/undefined`: the server refuses it, the store is
      unchanged, and the editor alerts and keeps its list. */
  lemma {:induction false} DeleteOfListedProjectMisses(
    ps: seq<Project>, k: nat, store: seq<Project>, token: string, listing: Option<seq<Project>>)
    requires k < |ps| && token != ""
    requires "undefined" !in Ids(store)
    ensures var cards := Load([], Some(ps));
      && DeleteRequest(cards[k].id, Some(token)) == Some(Request(Delete, "/api/projects/undefined", None))
      && var o := BackendServer.DeleteProject(store, ExpressAdmin.Request(Some(token), None), "undefined");
      && o.reply.Failure? && o.state == store
      && var r := DeleteSettled(cards, Some(token), Refused(Some(o.reply.error)), listing);
      && !r.success && r.cards == cards && r.alert == Some(o.reply.error)
  {
  }

  /** With `_id` copied to `id`, deleting a card asks for that project's own
      URL and the server removes exactly that project. */
  lemma {:induction false} DeleteOfMappedProjectRemoves(ps: seq<Project>, k: nat, token: string)
    requires k < |ps| && token != ""
    ensures var cards := LoadWithIds([], Some(ps));
      && DeleteRequest(cards[k].id, Some(token)) == Some(Request(Delete, "/api/projects/" + ps[k].id, None))
      && var o := BackendServer.DeleteProject(ps, ExpressAdmin.Request(Some(token), None), ps[k].id);
      && o.reply.Success?
      && (ValidStore(ps) ==> Ids(o.state) == Ids(ps) - {ps[k].id})
  {
    MappedCardKnown(ps, k);
  }
}

/** The Project document schema (required and trimmed title, required
    description, defaulted links, tags and featured flag, creation time), the
    request body the project handlers destructure, and the collection of
    stored projects. */
module ProjectSchema {
  import opened Wrappers
  import opened Text
  import opened Sorting

  /** A stored Project document; `id` is its `_id`, `createdAt` a time in ms. */
  datatype Project = Project(
    id: string,
    title: string,
    description: string,
    image: string,
    liveLink: string,
    githubLink: string,
    technologies: seq<string>,
    featured: bool,
    createdAt: int)

  /** `{ title, description, image, liveLink, githubLink, technologies,
      featured }` destructured from a request body; absent keys are None. */
  datatype Body = Body(
    title: Option<string>,
    description: Option<string>,
    image: Option<string>,
    liveLink: Option<string>,
    githubLink: Option<string>,
    technologies: Option<seq<string>>,
    featured: Option<bool>)

  /** The values a handler hands to the model, before the schema casts them. */
  datatype Fields = Fields(
    title: string,
    description: string,
    image: string,
    liveLink: string,
    githubLink: string,
    technologies: seq<string>,
    featured: bool)

  /** The handlers' own check: `!title || !description` rejects the body. */
  predicate HasRequired(b: Body) {
    Truthy(b.title) && Truthy(b.description)
  }

  /** The handlers' `x || default` step: every optional field that is absent
      (or falsy) gets the empty string, the empty list or `false`. */
  function WithDefaults(b: Body): (f: Fields)
    requires HasRequired(b)
    ensures f.title == b.title.value && f.description == b.description.value
    ensures b.image.None? ==> f.image == ""
    ensures b.liveLink.None? ==> f.liveLink == ""
    ensures b.githubLink.None? ==> f.githubLink == ""
    ensures b.technologies.None? ==> f.technologies == []
    ensures b.featured.None? ==> !f.featured
    ensures b.image.Some? ==> f.image == b.image.value
    ensures b.liveLink.Some? ==> f.liveLink == b.liveLink.value
    ensures b.githubLink.Some? ==> f.githubLink == b.githubLink.value
    ensures b.technologies.Some? ==> f.technologies == b.technologies.value
    ensures f.featured <==> b.featured == Some(true)
  {
    Fields(
      b.title.value,
      b.description.value,
      b.image.GetOr(""),
      b.liveLink.GetOr(""),
      b.githubLink.GetOr(""),
      b.technologies.GetOr([]),
      b.featured.GetOr(false))
  }

  /** The schema's casting and validation: the title is trimmed, and both
      the trimmed title and the description must be non-empty. */
  function Validate(f: Fields): (r: Option<Fields>)
    ensures r.Some? <==> Trim(f.title) != "" && f.description != ""
    ensures r.Some? ==> Trimmed(r.value.title) && r.value.title != ""
    ensures r.Some? ==> r.value.title == Trim(f.title)
    ensures r.Some? ==> r.value.(title := f.title) == f
  {
    if Trim(f.title) != "" && f.description != "" then Some(f.(title := Trim(f.title)))
    else None
  }

  /** Validation is idempotent: a document that passed once passes again
      unchanged. */
  lemma {:induction false} ValidateIdempotent(f: Fields)
    requires Validate(f).Some?
    ensures Validate(Validate(f).value) == Validate(f)
  {
    TrimIdempotent(f.title);
  }

  /** A body that passes both the handlers' own check and the schema. */
  predicate Accepted(b: Body) {
    HasRequired(b) && Validate(WithDefaults(b)).Some?
  }

  /** The fields a body is stored with: the defaulted fields, title trimmed. */
  function Stored(b: Body): (f: Fields)
    requires HasRequired(b)
    ensures Accepted(b) ==> Validate(WithDefaults(b)) == Some(f)
  {
    WithDefaults(b).(title := Trim(b.title.value))
  }

  /** A document built from validated fields, its `_id` and creation time
      supplied by the database and the clock. */
  function NewDocument(id: string, f: Fields, now: int): (p: Project)
    ensures p.id == id && p.createdAt == now
    ensures p.title == f.title && p.description == f.description
    ensures p.image == f.image && p.liveLink == f.liveLink && p.githubLink == f.githubLink
    ensures p.technologies == f.technologies && p.featured == f.featured
  {
    Project(id, f.title, f.description, f.image, f.liveLink, f.githubLink, f.technologies, f.featured, now)
  }

  /** The mutable fields of a stored document. */
  function FieldsOf(p: Project): Fields {
    Fields(p.title, p.description, p.image, p.liveLink, p.githubLink, p.technologies, p.featured)
  }

  /** Every project that exists in a store has a non-empty trimmed title
      and a non-empty description. */
  predicate WellFormed(p: Project) {
    Trimmed(p.title) && p.title != "" && p.description != ""
  }

  /** The `_id`s of a collection. */
  function Ids(ps: seq<Project>): (ids: set<string>)
    ensures forall i :: 0 <= i < |ps| ==> ps[i].id in ids
    ensures forall id :: id in ids ==> exists i :: 0 <= i < |ps| && ps[i].id == id
  {
    set i | 0 <= i < |ps| :: ps[i].id
  }

  /** `find().sort({ createdAt: -1 })`: every project, newest first. */
  function ByNewest(ps: seq<Project>): (r: seq<Project>)
    ensures multiset(r) == multiset(ps)
    ensures forall i, j :: 0 <= i < j < |r| ==> r[i].createdAt >= r[j].createdAt
  {
    SortNewestFirst(ps, (p: Project) => p.createdAt)
  }

  /** A collection in natural order, with unique `_id`s and only well-formed
      documents. */
  predicate ValidStore(ps: seq<Project>) {
    && (forall i, j :: 0 <= i < j < |ps| ==> ps[i].id != ps[j].id)
    && (forall i :: 0 <= i < |ps| ==> WellFormed(ps[i]))
  }

  /** `findById`: the position of the document with the given `_id`. */
  function IndexOf(ps: seq<Project>, id: string): (r: Option<nat>)
    ensures r.None? <==> id !in Ids(ps)
    ensures r.None? ==> forall i :: 0 <= i < |ps| ==> ps[i].id != id
    ensures r.Some? ==> r.value < |ps| && ps[r.value].id == id
    ensures r.Some? ==> forall i :: 0 <= i < r.value ==> ps[i].id != id
  {
    if ps == [] then None
    else if ps[0].id == id then Some(0)
    else
      match IndexOf(ps[1..], id)
      case None => None
      case Some(k) => Some(k + 1)
  }

  /** `findByIdAndUpdate` with `new: true`: the document keeps its `_id` and
      creation time, every mutable field is replaced, nothing else moves. */
  function ReplaceAt(ps: seq<Project>, k: nat, f: Fields): (r: seq<Project>)
    requires k < |ps|
    ensures |r| == |ps|
    ensures r[k].id == ps[k].id && r[k].createdAt == ps[k].createdAt && FieldsOf(r[k]) == f
    ensures forall i :: 0 <= i < |ps| && i != k ==> r[i] == ps[i]
  {
    ps[k := NewDocument(ps[k].id, f, ps[k].createdAt)]
  }

  /** `findByIdAndDelete`: the document at `k` is gone, the others keep
      their order. */
  function RemoveAt(ps: seq<Project>, k: nat): (r: seq<Project>)
    requires k < |ps|
    ensures |r| == |ps| - 1
    ensures forall i :: 0 <= i < k ==> r[i] == ps[i]
    ensures forall i :: k <= i < |r| ==> r[i] == ps[i + 1]
  {
    ps[..k] + ps[k + 1..]
  }

  /** Replacing the first document with a given `_id` touches no document
      with another `_id`, and keeps the creation time of every document with
      that `_id`. */
  lemma {:induction false} ReplaceTarget(ps: seq<Project>, k: nat, f: Fields, id: string)
    requires IndexOf(ps, id) == Some(k)
    ensures var r := ReplaceAt(ps, k, f);
      && r[k] in r
      && (forall i :: 0 <= i < |ps| && ps[i].id != id ==> r[i] == ps[i])
      && (forall i :: 0 <= i < |ps| && ps[i].id == id ==> r[i].createdAt == ps[i].createdAt)
  {
  }

  /** Replacing a document's fields with validated ones keeps the store valid. */
  lemma {:induction false} ReplaceKeepsValid(ps: seq<Project>, k: nat, f: Fields)
    requires ValidStore(ps) && k < |ps|
    requires Validate(f) == Some(f)
    ensures ValidStore(ReplaceAt(ps, k, f))
  {
  }

  /** Removing a document keeps the store valid, and exactly that `_id` is
      no longer present. */
  lemma {:induction false} RemoveKeepsValid(ps: seq<Project>, k: nat)
    requires ValidStore(ps) && k < |ps|
    ensures ValidStore(RemoveAt(ps, k))
    ensures Ids(RemoveAt(ps, k)) == Ids(ps) - {ps[k].id}
  {
    var r := RemoveAt(ps, k);
    forall i, j | 0 <= i < j < |r|
      ensures r[i].id != r[j].id
    {
      var i' := if i < k then i else i + 1;
      var j' := if j < k then j else j + 1;
      assert r[i] == ps[i'] && r[j] == ps[j'] && i' < j';
    }
    forall i | 0 <= i < |r|
      ensures WellFormed(r[i])
    {
      assert r[i] == ps[if i < k then i else i + 1];
    }
    forall i | 0 <= i < |ps| && i != k
      ensures ps[i].id != ps[k].id
    {
      if i < k { assert ps[i].id != ps[k].id; } else { assert ps[k].id != ps[i].id; }
    }
    RemoveIds(ps, k);
  }

  /** The `_id`s left after removing position `k`, when no other position
      carries its `_id`. */
  lemma {:induction false} RemoveIds(ps: seq<Project>, k: nat)
    requires k < |ps|
    requires forall i :: 0 <= i < |ps| && i != k ==> ps[i].id != ps[k].id
    ensures Ids(RemoveAt(ps, k)) == Ids(ps) - {ps[k].id}
  {
    RemovedIdsAreOld(ps, k);
    KeptIdsRemain(ps, k);
  }

  /** Every `_id` left after a removal was there before, and is not the
      removed one. */
  lemma {:induction false} RemovedIdsAreOld(ps: seq<Project>, k: nat)
    requires k < |ps|
    requires forall i :: 0 <= i < |ps| && i != k ==> ps[i].id != ps[k].id
    ensures Ids(RemoveAt(ps, k)) <= Ids(ps) - {ps[k].id}
  {
    var r := RemoveAt(ps, k);
    forall id | id in Ids(r)
      ensures id in Ids(ps) - {ps[k].id}
    {
      var i :| 0 <= i < |r| && r[i].id == id;
      var i' := if i < k then i else i + 1;
      assert r[i] == ps[i'] && i' != k;
    }
  }

  /** Every other `_id` survives a removal. */
  lemma {:induction false} KeptIdsRemain(ps: seq<Project>, k: nat)
    requires k < |ps|
    ensures Ids(ps) - {ps[k].id} <= Ids(RemoveAt(ps, k))
  {
    var r := RemoveAt(ps, k);
    forall id | id in Ids(ps) - {ps[k].id}
      ensures id in Ids(r)
    {
      var i :| 0 <= i < |ps| && ps[i].id == id;
      if i < k { assert r[i].id == id; } else { assert r[i - 1].id == id; }
    }
  }

  /** Appending a fresh, well-formed document keeps the store valid. */
  lemma {:induction false} AppendKeepsValid(ps: seq<Project>, p: Project)
    requires ValidStore(ps) && p.id !in Ids(ps) && WellFormed(p)
    ensures ValidStore(ps + [p])
    ensures Ids(ps + [p]) == Ids(ps) + {p.id}
  {
    var r := ps + [p];
    forall id | id in Ids(r)
      ensures id in Ids(ps) + {p.id}
    {
      var i :| 0 <= i < |r| && r[i].id == id;
      if i < |ps| { assert ps[i].id == id; }
    }
    assert r[|ps|].id == p.id;
    forall id | id in Ids(ps)
      ensures id in Ids(r)
    {
      var i :| 0 <= i < |ps| && ps[i].id == id;
      assert r[i].id == id;
    }
  }
}

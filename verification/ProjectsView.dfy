/** The public project list, in both of its variants: one loads the
    listing from the server and copies `_id` to `id`, the other reads the
    browser's `portfolioProjects` entry. Both show featured projects first
    and, within each group, the newest first. */
module ProjectsView {
  import opened Wrappers
  import opened Sorting
  import opened ProjectSchema

  /** A project as the list holds it: `id`, the mutable fields and the
      creation time. */
  datatype Entry = Entry(id: string, fields: Fields, createdAt: int)

  /** The list's three-way comparator: -1 when only `a` is featured, 1 when
      only `b` is, otherwise the difference of the creation times. */
  function Compare(a: Entry, b: Entry): int {
    if a.fields.featured && !b.fields.featured then -1
    else if !a.fields.featured && b.fields.featured then 1
    else b.createdAt - a.createdAt
  }

  /** The relation the sort follows: `a` goes strictly ahead of `b` when the
      comparator answers a negative number. */
  function FeaturedThenNewest(): (Entry, Entry) -> bool {
    (a: Entry, b: Entry) => Compare(a, b) < 0
  }

  /** What the comparator's sign means: a featured project goes ahead of a
      non-featured one, and between projects of the same status the later
      `createdAt` goes first; it answers zero exactly for a tie on both, and
      swapping the arguments flips the sign. */
  lemma {:induction false} CompareMeaning(a: Entry, b: Entry)
    ensures FeaturedThenNewest()(a, b) <==>
      (a.fields.featured && !b.fields.featured)
      || (a.fields.featured == b.fields.featured && a.createdAt > b.createdAt)
    ensures Compare(a, b) == 0 <==> a.fields.featured == b.fields.featured && a.createdAt == b.createdAt
    ensures Compare(a, b) > 0 <==> Compare(b, a) < 0
  {
  }

  /** The comparator is consistent, so the sort is well defined. */
  lemma {:induction false} FeaturedThenNewestIsStrictWeak()
    ensures StrictWeakOrder(FeaturedThenNewest())
  {
  }

  /** The order the list is shown in: a permutation of the loaded list,
      featured projects before all others, and creation times that never
      increase within each group. */
  function DisplayOrder(s: seq<Entry>): (r: seq<Entry>)
    ensures multiset(r) == multiset(s)
    ensures forall i, j :: 0 <= i < j < |r| && r[j].fields.featured ==> r[i].fields.featured
    ensures forall i, j :: 0 <= i < j < |r| && r[i].fields.featured == r[j].fields.featured ==>
      r[i].createdAt >= r[j].createdAt
  {
    FeaturedThenNewestIsStrictWeak();
    SortBySorted(s, FeaturedThenNewest());
    SortBy(s, FeaturedThenNewest())
  }

  /** Showing a list that is already shown does not reorder it. */
  lemma {:induction false} DisplayOrderIdempotent(s: seq<Entry>)
    ensures DisplayOrder(DisplayOrder(s)) == DisplayOrder(s)
  {
    FeaturedThenNewestIsStrictWeak();
    SortBySorted(s, FeaturedThenNewest());
    SortBySortedIsIdentity(DisplayOrder(s), FeaturedThenNewest());
  }

  /** `{ ...project, id: project._id }`. */
  function WithId(p: Project): (e: Entry)
    ensures e.id == p.id && e.fields == FieldsOf(p) && e.createdAt == p.createdAt
  {
    Entry(p.id, FieldsOf(p), p.createdAt)
  }

  /** The listing with `_id` copied to `id`, position by position. */
  function WithIds(ps: seq<Project>): (r: seq<Entry>)
    ensures |r| == |ps|
    ensures forall i :: 0 <= i < |ps| ==> r[i] == WithId(ps[i])
  {
    seq(|ps|, i requires 0 <= i < |ps| => WithId(ps[i]))
  }

  /** The server variant's `loadProjects`: an ok listing (Some) replaces the
      list with its display order; a failed or non-ok fetch changes nothing. */
  function LoadFromServer(shown: seq<Entry>, listing: Option<seq<Project>>): (r: seq<Entry>)
    ensures listing.None? ==> r == shown
    ensures listing.Some? ==> r == DisplayOrder(WithIds(listing.value))
  {
    match listing
    case None => shown
    case Some(ps) => DisplayOrder(WithIds(ps))
  }

  /** The browser variant's `loadProjects`: a stored list is shown in
      display order; an absent entry changes nothing. */
  function LoadFromBrowser(shown: seq<Entry>, stored: Option<seq<Entry>>): (r: seq<Entry>)
    ensures stored.None? ==> r == shown
    ensures stored.Some? ==> multiset(r) == multiset(stored.value) && r == DisplayOrder(stored.value)
  {
    match stored
    case None => shown
    case Some(s) => DisplayOrder(s)
  }

  /** The window events the lists listen to. */
  datatype Event = ProjectsUpdated | Storage | AdminAuthChanged

  /** The server variant reloads on `projectsUpdated` only. */
  function OnServerEvent(shown: seq<Entry>, e: Event, listing: Option<seq<Project>>): (r: seq<Entry>)
    ensures e != ProjectsUpdated ==> r == shown
    ensures e == ProjectsUpdated ==> r == LoadFromServer(shown, listing)
  {
    if e == ProjectsUpdated then LoadFromServer(shown, listing) else shown
  }

  /** The browser variant reloads on `storage` and on `projectsUpdated`. */
  function OnBrowserEvent(shown: seq<Entry>, e: Event, stored: Option<seq<Entry>>): (r: seq<Entry>)
    ensures e == AdminAuthChanged ==> r == shown
    ensures e != AdminAuthChanged ==> r == LoadFromBrowser(shown, stored)
  {
    match e
    case AdminAuthChanged => shown
    case _ => LoadFromBrowser(shown, stored)
  }

  /** The projects shown after a load are exactly the listed ones, each
      with its `_id` as `id`. */
  lemma {:induction false} ShownAreListed(ps: seq<Project>, e: Entry)
    ensures e in LoadFromServer([], Some(ps)) <==> exists i :: 0 <= i < |ps| && WithId(ps[i]) == e
  {
    var r := LoadFromServer([], Some(ps));
    assert multiset(r) == multiset(WithIds(ps));
    assert e in r <==> e in multiset(WithIds(ps));
    if e in WithIds(ps) {
      var i :| 0 <= i < |ps| && WithIds(ps)[i] == e;
      assert WithId(ps[i]) == e;
    }
    if exists i :: 0 <= i < |ps| && WithId(ps[i]) == e {
      var i :| 0 <= i < |ps| && WithId(ps[i]) == e;
      assert WithIds(ps)[i] == e;
    }
  }
}

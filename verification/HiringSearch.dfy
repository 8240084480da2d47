/** The hiring-applications search: a case-insensitive substring filter
    over name, email and position. */
module HiringSearch {
  import opened Wrappers
  import opened Text

  /** A stored application; any of the three fields may be missing. */
  datatype Application = Application(name: Option<string>, email: Option<string>, position: Option<string>)

  /** `field?.toLowerCase().includes(query.toLowerCase())`: a missing field
      never matches. */
  predicate FieldMatches(field: Option<string>, query: string) {
    field.Some? && Contains(Lower(field.value), Lower(query))
  }

  /** An application is shown when any of its three fields matches. */
  predicate Matches(a: Application, query: string) {
    FieldMatches(a.name, query) || FieldMatches(a.email, query) || FieldMatches(a.position, query)
  }

  /** `a` is `b` with some elements left out, the rest in their order. */
  predicate SubsequenceOf<T(==)>(a: seq<T>, b: seq<T>)
    decreases |b|
  {
    if a == [] then true
    else if b == [] then false
    else (a[0] == b[0] && SubsequenceOf(a[1..], b[1..])) || SubsequenceOf(a, b[1..])
  }

  /** `filteredApplications`. */
  function Filter(apps: seq<Application>, query: string): (r: seq<Application>)
    ensures |r| <= |apps|
    ensures forall i :: 0 <= i < |r| ==> Matches(r[i], query)
  {
    if apps == [] then []
    else if Matches(apps[0], query) then [apps[0]] + Filter(apps[1..], query)
    else Filter(apps[1..], query)
  }

  /** The filter keeps the applications in their stored order. */
  lemma {:induction false} FilterIsSubsequence(apps: seq<Application>, query: string)
    ensures SubsequenceOf(Filter(apps, query), apps)
  {
    if apps != [] {
      FilterIsSubsequence(apps[1..], query);
      var r := Filter(apps, query);
      if Matches(apps[0], query) {
        assert r[1..] == Filter(apps[1..], query);
      }
    }
  }

  /** An application is shown exactly when it is stored and matches. */
  lemma {:induction false} FilterMembership(apps: seq<Application>, query: string, a: Application)
    ensures a in Filter(apps, query) <==> a in apps && Matches(a, query)
  {
    if apps != [] {
      FilterMembership(apps[1..], query, a);
      assert a in apps <==> a == apps[0] || a in apps[1..];
    }
  }

  /** Every matching application is kept as many times as it is stored,
      and no other is kept at all. */
  lemma {:induction false} FilterCounts(apps: seq<Application>, query: string)
    ensures forall a :: multiset(Filter(apps, query))[a] == if Matches(a, query) then multiset(apps)[a] else 0
  {
    if apps != [] {
      FilterCounts(apps[1..], query);
      assert apps == [apps[0]] + apps[1..];
    }
  }

  /** An empty query shows every application with at least one field. */
  lemma {:induction false} EmptyQueryKeepsPresent(a: Application)
    ensures Matches(a, "") <==> a.name.Some? || a.email.Some? || a.position.Some?
  {
    if a.name.Some? { ContainsEmpty(Lower(a.name.value)); }
    if a.email.Some? { ContainsEmpty(Lower(a.email.value)); }
    if a.position.Some? { ContainsEmpty(Lower(a.position.value)); }
  }

  /** Lower-casing twice is lower-casing once. */
  lemma {:induction false} LowerIdempotent(s: string)
    ensures Lower(Lower(s)) == Lower(s)
  {
  }

  /** The case of the query makes no difference. */
  lemma {:induction false} FilterIgnoresQueryCase(apps: seq<Application>, query: string)
    ensures Filter(apps, Lower(query)) == Filter(apps, query)
  {
    LowerIdempotent(query);
    if apps != [] {
      FilterIgnoresQueryCase(apps[1..], query);
    }
  }

  /** `loadApplications`: the stored list, or the empty list when the
      `hiringApplications` entry is absent. */
  function Load(stored: Option<seq<Application>>): (r: seq<Application>)
    ensures stored.Some? ==> r == stored.value
    ensures stored.None? ==> r == []
  {
    stored.GetOr([])
  }
}

/**
 * The admin dashboard's list logic (app/admin/dashboard/page.tsx): the
 * status filter, the text search, the four sort orders, the statistics
 * cards and the update of the list after a delete.
 */
module Dashboard {
  import opened Wrappers
  import opened Seqs
  import opened JsText
  import opened Records

  datatype StatusFilter = All | OnlyPublished | OnlyDraft

  /** The filter's value in the `<select>`; `All` is `'all'`. */
  function FilterText(filter: StatusFilter): string {
    match filter
    case All => "all"
    case OnlyPublished => "published"
    case OnlyDraft => "draft"
  }

  datatype SortKey = Newest | Oldest | TitleAsc | TitleDesc

  /** `String(p.status || '').toLowerCase()`. */
  function StatusText(p: Project): string {
    Lower(OrEmpty(p.status))
  }

  function StatusIs(filter: StatusFilter): Project -> bool {
    (p: Project) => StatusText(p) == FilterText(filter)
  }

  /** The five lower-cased texts the search looks in; tags are joined by spaces. */
  function SearchTexts(p: Project): seq<string> {
    [ Lower(OrEmpty(p.title)),
      Lower(OrEmpty(p.description)),
      Lower(OrEmpty(p.slug)),
      if p.tags.Some? then Lower(Join(p.tags.value, " ")) else "",
      Lower(OrEmpty(p.projectType)) ]
  }

  /** The search predicate: the query occurs in one of the texts. */
  predicate MatchesQuery(query: string, p: Project) {
    exists k :: 0 <= k < |SearchTexts(p)| && Includes(SearchTexts(p)[k], query)
  }

  function Matching(query: string): Project -> bool {
    (p: Project) => MatchesQuery(query, p)
  }

  /** The list before sorting: the status filter unless it is `all`, then the search unless the query is blank. */
  function Filtered(projects: seq<Project>, q: string, filter: StatusFilter): (r: seq<Project>)
    ensures |r| <= |projects|
  {
    var byStatus := if filter == All then projects else Filter(projects, StatusIs(filter));
    if NormalizedQuery(q) == "" then byStatus else Filter(byStatus, Matching(NormalizedQuery(q)))
  }

  /**
   * A project is listed exactly when it passes the status filter and, for a
   * non-blank query, the search.
   */
  lemma FilteredMembers(projects: seq<Project>, q: string, filter: StatusFilter, p: Project)
    ensures p in Filtered(projects, q, filter) <==>
      && p in projects
      && (filter != All ==> StatusText(p) == FilterText(filter))
      && (NormalizedQuery(q) != "" ==> MatchesQuery(NormalizedQuery(q), p))
  {
  }

  /** With `all` and a blank query nothing is filtered out. */
  lemma FilteredDefault(projects: seq<Project>, q: string)
    requires NormalizedQuery(q) == ""
    ensures Filtered(projects, q, All) == projects
  {
  }

  /** The filtered list keeps the stored order. */
  lemma FilteredKeepsOrder(projects: seq<Project>, q: string, filter: StatusFilter)
    ensures IsSubsequence(Filtered(projects, q, filter), projects)
  {
    var byStatus := if filter == All then projects else Filter(projects, StatusIs(filter));
    if filter != All {
      FilterIsSubsequence(projects, StatusIs(filter));
    } else {
      SubsequenceReflexive(projects);
    }
    if NormalizedQuery(q) != "" {
      FilterIsSubsequence(byStatus, Matching(NormalizedQuery(q)));
      SubsequenceTransitive(Filtered(projects, q, filter), byStatus, projects);
    }
  }

  /** `toTime(created_at)`: the parsed time, or 0 for a date `new Date` cannot read. */
  function ToTime(t: Timestamp): (ms: int)
    ensures t.Unparsable? ==> ms == 0
    ensures t.Parsed? ==> ms == t.ms
  {
    match t
    case Parsed(ms) => ms
    case Unparsable => 0
  }

  /**
   * The sort, as an ascending integer key. `rank` is the collation order of
   * `localeCompare` (a title ranked lower compares before); a missing title
   * counts as `''`.
   */
  function SortValue(key: SortKey, rank: string -> int): Project -> int {
    match key
    case Newest => (p: Project) => -ToTime(p.createdAt)
    case Oldest => (p: Project) => ToTime(p.createdAt)
    case TitleAsc => (p: Project) => rank(OrEmpty(p.title))
    case TitleDesc => (p: Project) => -rank(OrEmpty(p.title))
  }

  predicate SortedByKey<T>(s: seq<T>, key: T -> int) {
    forall i, j :: 0 <= i < j < |s| ==> key(s[i]) <= key(s[j])
  }

  /** What each sort order means for the listed projects. */
  lemma SortOrderMeaning(s: seq<Project>, key: SortKey, rank: string -> int)
    requires SortedByKey(s, SortValue(key, rank))
    ensures key == Newest ==> forall i, j :: 0 <= i < j < |s| ==> ToTime(s[i].createdAt) >= ToTime(s[j].createdAt)
    ensures key == Oldest ==> forall i, j :: 0 <= i < j < |s| ==> ToTime(s[i].createdAt) <= ToTime(s[j].createdAt)
    ensures key == TitleAsc ==> forall i, j :: 0 <= i < j < |s| ==> rank(OrEmpty(s[i].title)) <= rank(OrEmpty(s[j].title))
    ensures key == TitleDesc ==> forall i, j :: 0 <= i < j < |s| ==> rank(OrEmpty(s[i].title)) >= rank(OrEmpty(s[j].title))
  {
    forall i, j | 0 <= i < j < |s|
      ensures SortValue(key, rank)(s[i]) <= SortValue(key, rank)(s[j])
    {
    }
  }

  /** Exchanges two elements of the array. */
  method Swap<T>(a: array<T>, i: int, j: int)
    requires 0 <= i < a.Length && 0 <= j < a.Length
    modifies a
    ensures a[i] == old(a[j]) && a[j] == old(a[i])
    ensures forall m :: 0 <= m < a.Length && m != i && m != j ==> a[m] == old(a[m])
    ensures multiset(a[..]) == old(multiset(a[..]))
  {
    a[i], a[j] := a[j], a[i];
  }

  /**
   * The state of one insertion: `s[..i + 1]` is sorted except that the
   * element at `j` may be smaller than those before it, and is no larger
   * than those after it.
   */
  predicate Inserting<T>(s: seq<T>, j: int, i: int, key: T -> int)
    requires 0 <= j <= i < |s|
  {
    && (forall m, n :: 0 <= m < n <= i && m != j && n != j ==> key(s[m]) <= key(s[n]))
    && (forall m, n :: 0 <= m < j < n <= i ==> key(s[m]) <= key(s[n]))
    && (forall n :: j < n <= i ==> key(s[j]) <= key(s[n]))
  }

  lemma InsertingStart<T>(s: seq<T>, i: int, key: T -> int)
    requires 0 <= i < |s| && SortedByKey(s[..i], key)
    ensures Inserting(s, i, i, key)
  {
    assert forall m :: 0 <= m < i ==> s[..i][m] == s[m];
  }

  /** Swapping the element at `j` with a larger left neighbour moves the insertion one step left. */
  lemma InsertingStep<T>(s: seq<T>, j: int, i: int, key: T -> int)
    requires 0 < j <= i < |s| && Inserting(s, j, i, key) && key(s[j - 1]) > key(s[j])
    ensures Inserting(s[j - 1 := s[j]][j := s[j - 1]], j - 1, i, key)
  {
  }

  /** The insertion is finished once the element at `j` is no smaller than its left neighbour. */
  lemma InsertingDone<T>(s: seq<T>, j: int, i: int, key: T -> int)
    requires 0 <= j <= i < |s| && Inserting(s, j, i, key)
    requires j == 0 || key(s[j - 1]) <= key(s[j])
    ensures SortedByKey(s[..i + 1], key)
  {
    var p := s[..i + 1];
    forall m, n | 0 <= m < n < |p| ensures key(p[m]) <= key(p[n]) {
      assert p[m] == s[m] && p[n] == s[n];
      if m == j - 1 && n != j {
        assert key(s[j - 1]) <= key(s[j]) <= key(s[n]);
      }
    }
  }

  /** Moves `a[i]` left past every larger key, so that `a[..i + 1]` becomes sorted. */
  method InsertAt<T>(a: array<T>, i: int, key: T -> int)
    requires 0 <= i < a.Length
    requires SortedByKey(a[..i], key)
    modifies a
    ensures SortedByKey(a[..i + 1], key)
    ensures multiset(a[..]) == old(multiset(a[..]))
    ensures forall m :: i < m < a.Length ==> a[m] == old(a[m])
  {
    var j := i;
    InsertingStart(a[..], i, key);
    while j > 0 && key(a[j - 1]) > key(a[j])
      invariant 0 <= j <= i
      invariant Inserting(a[..], j, i, key)
      invariant multiset(a[..]) == old(multiset(a[..]))
      invariant forall m :: i < m < a.Length ==> a[m] == old(a[m])
    {
      ghost var before := a[..];
      InsertingStep(before, j, i, key);
      Swap(a, j - 1, j);
      assert a[..] == before[j - 1 := before[j]][j := before[j - 1]];
      j := j - 1;
    }
    InsertingDone(a[..], j, i, key);
  }

  /** `list.sort(compare)`, in place, for a comparison that subtracts the keys. */
  method SortByKey<T>(a: array<T>, key: T -> int)
    modifies a
    ensures SortedByKey(a[..], key)
    ensures multiset(a[..]) == old(multiset(a[..]))
  {
    var i := 0;
    while i < a.Length
      invariant 0 <= i <= a.Length
      invariant SortedByKey(a[..i], key)
      invariant multiset(a[..]) == old(multiset(a[..]))
    {
      InsertAt(a, i, key);
      i := i + 1;
    }
    assert a[..a.Length] == a[..];
  }

  /** `[...s]` followed by an in-place `sort`: a sorted permutation of `s`. */
  method SortedCopy<T>(s: seq<T>, key: T -> int) returns (list: seq<T>)
    ensures multiset(list) == multiset(s)
    ensures SortedByKey(list, key)
  {
    var a := new T[|s|](i requires 0 <= i < |s| => s[i]);
    assert a[..] == s;
    SortByKey(a, key);
    list := a[..];
  }

  /**
   * The `visible` memo: copy the projects, filter by status and by the
   * query, then sort the copy in place.
   */
  method Visible(projects: seq<Project>, q: string, filter: StatusFilter, key: SortKey, rank: string -> int)
    returns (list: seq<Project>)
    ensures multiset(list) == multiset(Filtered(projects, q, filter))
    ensures SortedByKey(list, SortValue(key, rank))
  {
    list := SortedCopy(Filtered(projects, q, filter), SortValue(key, rank));
  }

  /** With `all` and a blank query the visible list is a permutation of the projects. */
  lemma VisibleDefaultIsPermutation(projects: seq<Project>, q: string, list: seq<Project>)
    requires NormalizedQuery(q) == ""
    requires multiset(list) == multiset(Filtered(projects, q, All))
    ensures multiset(list) == multiset(projects)
  {
    FilteredDefault(projects, q);
  }

  /** Every visible project passes the filters, and every project that passes them is visible. */
  lemma VisibleMembers(projects: seq<Project>, q: string, filter: StatusFilter, list: seq<Project>, p: Project)
    requires multiset(list) == multiset(Filtered(projects, q, filter))
    ensures p in list <==>
      && p in projects
      && (filter != All ==> StatusText(p) == FilterText(filter))
      && (NormalizedQuery(q) != "" ==> MatchesQuery(NormalizedQuery(q), p))
  {
    assert p in list <==> p in multiset(list);
    assert p in Filtered(projects, q, filter) <==> p in multiset(Filtered(projects, q, filter));
    FilteredMembers(projects, q, filter, p);
  }

  // ----------------------------------------------------------------- stats

  datatype Stats = Stats(total: nat, published: nat, draft: nat, featured: nat)

  /** `String(p.status) === 'published'`: exact, not lower-cased. */
  function IsPublished(p: Project): bool { p.status == Some("published") }

  function IsDraft(p: Project): bool { p.status == Some("draft") }

  function IsFeatured(p: Project): bool { p.featured }

  /** The `stats` memo. */
  function ComputeStats(projects: seq<Project>): (st: Stats)
    ensures st.total == |projects|
    ensures st.published == Count(projects, IsPublished)
    ensures st.draft == Count(projects, IsDraft)
    ensures st.featured == Count(projects, IsFeatured)
    ensures st.published + st.draft <= st.total
    ensures st.featured <= st.total
  {
    CountDisjoint(projects, IsPublished, IsDraft);
    Stats(|projects|, Count(projects, IsPublished), Count(projects, IsDraft), Count(projects, IsFeatured))
  }

  /** The published card never shows more than the `published` filter lists (the filter also accepts other cases). */
  lemma PublishedStatBelowFilter(projects: seq<Project>, q: string)
    requires NormalizedQuery(q) == ""
    ensures ComputeStats(projects).published <= |Filtered(projects, q, OnlyPublished)|
    ensures ComputeStats(projects).draft <= |Filtered(projects, q, OnlyDraft)|
  {
    assert forall p :: IsPublished(p) ==> StatusIs(OnlyPublished)(p);
    assert forall p :: IsDraft(p) ==> StatusIs(OnlyDraft)(p);
    CountMonotone(projects, IsPublished, StatusIs(OnlyPublished));
    CountMonotone(projects, IsDraft, StatusIs(OnlyDraft));
  }

  /**
   * A project stored as `Published` is on neither card, though the
   * `published` filter, which lower-cases the status, lists it.
   */
  lemma CapitalisedStatusMissesCards(p: Project, q: string)
    requires p.status == Some("Published")
    requires NormalizedQuery(q) == ""
    ensures ComputeStats([p]).published == 0 && ComputeStats([p]).draft == 0
    ensures Filtered([p], q, OnlyPublished) == [p]
  {
    assert !IsPublished(p) && !IsDraft(p);
    assert Filter([p], IsPublished) == [] && Filter([p], IsDraft) == [];
    assert StatusText(p) == "published";
    assert StatusIs(OnlyPublished)(p);
    assert Filter([p], StatusIs(OnlyPublished)) == [p];
  }

  // ---------------------------------------------------------------- delete

  function HasOtherId(id: string): Project -> bool {
    (p: Project) => p.id != id
  }

  /** `prev.filter((p) => p.id !== id)`. */
  function RemoveId(projects: seq<Project>, id: string): (r: seq<Project>)
    ensures forall p :: p in r <==> p in projects && p.id != id
  {
    Filter(projects, HasOtherId(id))
  }

  /** Removing an id drops every project with it and keeps each other one as often as it was there, in order. */
  lemma RemoveIdKeepsOthers(projects: seq<Project>, id: string)
    ensures IsSubsequence(RemoveId(projects, id), projects)
    ensures forall p: Project :: p.id != id ==> multiset(RemoveId(projects, id))[p] == multiset(projects)[p]
    ensures forall p: Project :: p.id == id ==> multiset(RemoveId(projects, id))[p] == 0
  {
    FilterIsSubsequence(projects, HasOtherId(id));
    FilterMultiset(projects, HasOtherId(id));
  }

  /** How a delete request ended: `res.ok`, a response that is not ok, or a thrown error. */
  datatype DeleteOutcome = Deleted | Refused | Failed

  /** The dashboard's `projects` state. */
  class DashboardState {
    var projects: seq<Project>

    constructor ()
      ensures projects == []
    {
      projects := [];
    }

    /** `fetchProjects` after a successful response: `data.projects || []`. */
    method Loaded(rows: Option<seq<Project>>)
      modifies this
      ensures projects == (if rows.Some? then rows.value else [])
    {
      projects := if rows.Some? then rows.value else [];
    }

    /** `handleDelete`: only a confirmed delete whose response is ok changes the list. */
    method HandleDelete(id: string, confirmed: bool, outcome: DeleteOutcome)
      modifies this
      ensures confirmed && outcome == Deleted ==> projects == RemoveId(old(projects), id)
      ensures !(confirmed && outcome == Deleted) ==> projects == old(projects)
    {
      if !confirmed {
        return;
      }
      if outcome == Deleted {
        projects := RemoveId(projects, id);
      }
    }
  }
}

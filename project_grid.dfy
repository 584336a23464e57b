/**
 * The public projects grid (app/projects/project-grid-client.tsx): the type
 * label, the type and stack facets offered as filters, the filtered list and
 * the filter state with its reset.
 */
module ProjectGrid {
  import opened Wrappers
  import opened Seqs
  import opened JsText
  import opened Records

  /** `String(p.type || 'web')`. */
  function TypeKey(p: Project): string {
    OrDefault(p.projectType, "web")
  }

  /** The project's stack if it is an array, else `[]`. */
  function StackOf(p: Project): seq<string> {
    if p.stack.Some? then p.stack.value else []
  }

  predicate HasNoUpper(s: string) {
    forall i :: 0 <= i < |s| ==> !('A' <= s[i] <= 'Z')
  }

  lemma LowerHasNoUpper(s: string)
    ensures HasNoUpper(Lower(s))
  {
  }

  /**
   * `formatType`: the lower-cased type (`web` when missing or empty) with its
   * first character upper-cased, except that `uiux` reads `UI/UX`.
   */
  function FormatType(projectType: Option<string>): (r: string)
    ensures r != ""
    ensures projectType.None? || projectType == Some("") ==> r == "Web"
    ensures r == "UI/UX" <==> Lower(OrDefault(projectType, "web")) == "uiux"
    ensures r != "UI/UX" ==>
      var t := Lower(OrDefault(projectType, "web"));
      t != "" && r[0] == UpperChar(t[0]) && r[1..] == t[1..] && Lower(r) == t
  {
    var t := Lower(OrDefault(projectType, "web"));
    LowerHasNoUpper(OrDefault(projectType, "web"));
    if t == "uiux" then "UI/UX"
    else
      var r := [UpperChar(t[0])] + t[1..];
      assert r[1..] == t[1..];
      assert "UI/UX"[1] == 'I';
      assert r != "UI/UX" by {
        if |r| == 5 { assert r[1] == t[1]; }
      }
      assert Lower(r) == t by {
        assert LowerChar(r[0]) == t[0];
        forall i | 1 <= i < |r| ensures Lower(r)[i] == t[i] {
          assert r[i] == t[i];
        }
      }
      r
  }

  // ---------------------------------------------------------------- facets

  /** The types a set of projects has, counting a missing type as `web`. */
  function TypeSet(projects: seq<Project>): set<string> {
    if projects == [] then {}
    else TypeSet(projects[..|projects| - 1]) + {TypeKey(projects[|projects| - 1])}
  }

  lemma {:induction false} TypeSetMembers(projects: seq<Project>, x: string)
    ensures x in TypeSet(projects) <==> exists i :: 0 <= i < |projects| && TypeKey(projects[i]) == x
  {
    if projects != [] {
      var init := projects[..|projects| - 1];
      TypeSetMembers(init, x);
      if x in TypeSet(init) {
        var i :| 0 <= i < |init| && TypeKey(init[i]) == x;
        assert projects[i] == init[i];
      }
      if exists i :: 0 <= i < |projects| && TypeKey(projects[i]) == x {
        var i :| 0 <= i < |projects| && TypeKey(projects[i]) == x;
        if i < |init| {
          assert init[i] == projects[i];
        }
      }
    }
  }

  /** The distinct elements of a list. */
  function Elements(xs: seq<string>): (r: set<string>)
    ensures forall x :: x in r <==> x in xs
  {
    set i | 0 <= i < |xs| :: xs[i]
  }

  /** The stack entries a set of projects has. */
  function StackSet(projects: seq<Project>): set<string> {
    if projects == [] then {}
    else StackSet(projects[..|projects| - 1]) + Elements(StackOf(projects[|projects| - 1]))
  }

  lemma {:induction false} StackSetMembers(projects: seq<Project>, x: string)
    ensures x in StackSet(projects) <==> exists i :: 0 <= i < |projects| && x in StackOf(projects[i])
  {
    if projects != [] {
      var init := projects[..|projects| - 1];
      StackSetMembers(init, x);
      if x in StackSet(init) {
        var i :| 0 <= i < |init| && x in StackOf(init[i]);
        assert projects[i] == init[i];
      }
      if exists i :: 0 <= i < |projects| && x in StackOf(projects[i]) {
        var i :| 0 <= i < |projects| && x in StackOf(projects[i]);
        if i < |init| {
          assert init[i] == projects[i];
        }
      }
    }
  }

  /** The least of a non-empty set of strings in code-point order. */
  method Least(s: set<string>) returns (m: string)
    requires s != {}
    ensures m in s
    ensures forall x :: x in s && x != m ==> Less(m, x)
  {
    m :| m in s;
    var rest := s - {m};
    while rest != {}
      invariant rest <= s && m in s && m !in rest
      invariant forall x :: x in s - rest && x != m ==> Less(m, x)
      decreases |rest|
    {
      var x :| x in rest;
      if Less(x, m) {
        forall y | y in s - rest && y != m ensures Less(x, y) {
          LessTransitive(x, m, y);
        }
        m := x;
      } else {
        LessTotal(x, m);
      }
      rest := rest - {x};
    }
  }

  /** `Array.from(set).sort()`: the distinct strings in ascending code-point order. */
  method SortDistinct(s: set<string>) returns (r: seq<string>)
    ensures StrictlySorted(r)
    ensures forall x :: x in r <==> x in s
    ensures |r| == |s|
  {
    var rest := s;
    r := [];
    while rest != {}
      invariant rest <= s
      invariant forall x :: x in r <==> x in s && x !in rest
      invariant StrictlySorted(r)
      invariant forall x, y :: x in r && y in rest ==> Less(x, y)
      invariant |r| + |rest| == |s|
      decreases |rest|
    {
      var m := Least(rest);
      r := r + [m];
      rest := rest - {m};
    }
  }

  /** `allTypes`: `'all'` followed by the distinct types in ascending order. */
  method AllTypes(projects: seq<Project>) returns (r: seq<string>)
    ensures |r| >= 1 && r[0] == "all"
    ensures StrictlySorted(r[1..])
    ensures forall x :: x in r[1..] <==> exists i :: 0 <= i < |projects| && TypeKey(projects[i]) == x
  {
    var seen: set<string> := {};
    for k := 0 to |projects|
      invariant seen == TypeSet(projects[..k])
    {
      assert projects[..k + 1][..k] == projects[..k];
      seen := seen + {TypeKey(projects[k])};
    }
    assert projects[..|projects|] == projects;
    var sorted := SortDistinct(seen);
    r := ["all"] + sorted;
    assert r[1..] == sorted;
    forall x ensures x in sorted <==> exists i :: 0 <= i < |projects| && TypeKey(projects[i]) == x {
      TypeSetMembers(projects, x);
    }
  }

  /** `allStacks`: `'all'` followed by the distinct stack entries in ascending order. */
  method AllStacks(projects: seq<Project>) returns (r: seq<string>)
    ensures |r| >= 1 && r[0] == "all"
    ensures StrictlySorted(r[1..])
    ensures forall x :: x in r[1..] <==> exists i :: 0 <= i < |projects| && x in StackOf(projects[i])
  {
    var seen: set<string> := {};
    for k := 0 to |projects|
      invariant seen == StackSet(projects[..k])
    {
      var stack := StackOf(projects[k]);
      ghost var before := seen;
      for j := 0 to |stack|
        invariant seen == before + Elements(stack[..j])
      {
        assert stack[..j + 1] == stack[..j] + [stack[j]];
        seen := seen + {stack[j]};
      }
      assert stack[..|stack|] == stack;
      assert projects[..k + 1][..k] == projects[..k];
    }
    assert projects[..|projects|] == projects;
    var sorted := SortDistinct(seen);
    r := ["all"] + sorted;
    assert r[1..] == sorted;
    forall x ensures x in sorted <==> exists i :: 0 <= i < |projects| && x in StackOf(projects[i]) {
      StackSetMembers(projects, x);
    }
  }

  // -------------------------------------------------------------- filtering

  /** The search: the query is blank or occurs in the title, description, slug or space-joined tags. */
  predicate MatchesQuery(query: string, p: Project) {
    || query == ""
    || Includes(Lower(OrEmpty(p.title)), query)
    || Includes(Lower(OrEmpty(p.description)), query)
    || Includes(Lower(OrEmpty(p.slug)), query)
    || Includes(if p.tags.Some? then Lower(Join(p.tags.value, " ")) else "", query)
  }

  /** The type filter compares lower-cased texts; the stack filter is exact membership. */
  predicate MatchesFacets(typeFilter: string, stackFilter: string, p: Project) {
    && (typeFilter == "all" || Lower(TypeKey(p)) == Lower(typeFilter))
    && (stackFilter == "all" || stackFilter in StackOf(p))
  }

  function GridMatch(query: string, typeFilter: string, stackFilter: string): Project -> bool {
    (p: Project) => MatchesQuery(query, p) && MatchesFacets(typeFilter, stackFilter, p)
  }

  /** The `visible` memo. */
  function VisibleProjects(projects: seq<Project>, q: string, typeFilter: string, stackFilter: string): (r: seq<Project>)
    ensures |r| <= |projects|
    ensures forall p :: p in r <==>
      p in projects && MatchesQuery(NormalizedQuery(q), p) && MatchesFacets(typeFilter, stackFilter, p)
  {
    Filter(projects, GridMatch(NormalizedQuery(q), typeFilter, stackFilter))
  }

  /** The grid shows projects in their given order, so "Showing x of y" has x at most y. */
  lemma VisibleKeepsOrder(projects: seq<Project>, q: string, typeFilter: string, stackFilter: string)
    ensures IsSubsequence(VisibleProjects(projects, q, typeFilter, stackFilter), projects)
  {
    FilterIsSubsequence(projects, GridMatch(NormalizedQuery(q), typeFilter, stackFilter));
  }

  /** With the default filters every project is shown. */
  lemma DefaultFiltersShowAll(projects: seq<Project>)
    ensures VisibleProjects(projects, "", "all", "all") == projects
  {
    assert NormalizedQuery("") == "";
    FilterKeepsAll(projects, GridMatch("", "all", "all"));
  }

  /** The query never looks at the type. */
  lemma QueryIgnoresType(query: string, p: Project, t: Option<string>)
    ensures MatchesQuery(query, p) <==> MatchesQuery(query, p.(projectType := t))
  {
  }

  /** The grid's filter state. */
  class GridFilters {
    var q: string
    var typeFilter: string
    var stackFilter: string

    predicate IsDefault()
      reads this
    {
      q == "" && typeFilter == "all" && stackFilter == "all"
    }

    constructor ()
      ensures IsDefault()
    {
      q, typeFilter, stackFilter := "", "all", "all";
    }

    /** Typing in the search box. */
    method SetQuery(text: string)
      modifies this
      ensures q == text && typeFilter == old(typeFilter) && stackFilter == old(stackFilter)
    {
      q := text;
    }

    /** Choosing a type in the type select. */
    method SetTypeFilter(t: string)
      modifies this
      ensures typeFilter == t && q == old(q) && stackFilter == old(stackFilter)
    {
      typeFilter := t;
    }

    /** Choosing a stack entry in the stack select. */
    method SetStackFilter(s: string)
      modifies this
      ensures stackFilter == s && q == old(q) && typeFilter == old(typeFilter)
    {
      stackFilter := s;
    }

    /** `clearFilters`: back to the defaults, under which every project is shown. */
    method ClearFilters()
      modifies this
      ensures IsDefault()
      ensures forall projects :: VisibleProjects(projects, q, typeFilter, stackFilter) == projects
    {
      q, typeFilter, stackFilter := "", "all", "all";
      forall projects: seq<Project> ensures VisibleProjects(projects, "", "all", "all") == projects {
        DefaultFiltersShowAll(projects);
      }
    }
  }
}

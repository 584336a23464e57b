/**
 * Slug derivation (`slugify`) and unique-slug allocation (`ensureUniqueSlug`)
 * of app/api/admin/projects/route.ts; components/admin/project-form.tsx
 * carries a character-for-character copy of `slugify`, modelled by the same
 * function.
 */
module Slugs {
  import opened JsText
  import opened Seqs

  /** The characters `[a-z0-9]` that survive slugification. */
  predicate IsSlugChar(c: char) {
    'a' <= c <= 'z' || '0' <= c <= '9'
  }

  /** The block U+0300..U+036F of combining diacritical marks. */
  predicate IsCombiningMark(c: char) {
    '\U{0300}' <= c <= '\U{036F}'
  }

  predicate InSlugAlphabet(s: string) {
    forall i :: 0 <= i < |s| ==> IsSlugChar(s[i]) || s[i] == '-'
  }

  predicate NoDoubleHyphen(s: string) {
    forall i :: 0 <= i < |s| - 1 ==> !(s[i] == '-' && s[i + 1] == '-')
  }

  /** `[a-z0-9]+` tokens joined by single hyphens (or the empty string). */
  predicate IsSlug(s: string) {
    && InSlugAlphabet(s)
    && NoDoubleHyphen(s)
    && (s != [] ==> s[0] != '-' && s[|s| - 1] != '-')
  }

  /** `.replace(/[\u0300-\u036f]/g, '')`. */
  function StripCombiningMarks(s: string): string {
    Filter(s, c => !IsCombiningMark(c))
  }

  /** `.replace(/[^a-z0-9]+/g, '-')`: every maximal run of other characters becomes one hyphen. */
  function CollapseRuns(s: string): (r: string)
    ensures InSlugAlphabet(r) && NoDoubleHyphen(r)
    ensures r != [] && s != [] ==> (r[|r| - 1] == '-' <==> !IsSlugChar(s[|s| - 1]))
  {
    if s == [] then []
    else
      var p := CollapseRuns(s[..|s| - 1]);
      var c := s[|s| - 1];
      if IsSlugChar(c) then p + [c]
      else if p != [] && p[|p| - 1] == '-' then p
      else p + ['-']
  }

  /** `.replace(/(^-|-$)/g, '')`: drops one hyphen at each end. */
  function StripEdgeHyphens(s: string): (r: string)
    ensures InSlugAlphabet(s) && NoDoubleHyphen(s) ==> IsSlug(r)
  {
    var t := if s != [] && s[0] == '-' then s[1..] else s;
    assert InSlugAlphabet(s) && NoDoubleHyphen(s) && t != [] && s != [] && s[0] == '-' ==> t[0] != '-' by {
      if InSlugAlphabet(s) && NoDoubleHyphen(s) && t != [] && s != [] && s[0] == '-' {
        assert t[0] == s[1];
      }
    }
    if t != [] && t[|t| - 1] == '-' then t[..|t| - 1] else t
  }

  /**
   * `slugify(input)`: lower-case, trim, drop combining marks, collapse
   * everything outside `[a-z0-9]` into single hyphens, strip edge hyphens.
   * The result is always slug-shaped.
   */
  function Slugify(input: string): (r: string)
    ensures IsSlug(r)
  {
    StripEdgeHyphens(CollapseRuns(StripCombiningMarks(Trim(Lower(input)))))
  }

  /** A string of slug characters and single hyphens is left alone by the collapse step. */
  lemma {:induction false} CollapseRunsFixed(t: string)
    requires InSlugAlphabet(t) && NoDoubleHyphen(t)
    ensures CollapseRuns(t) == t
  {
    if t != [] {
      var u := t[..|t| - 1];
      assert InSlugAlphabet(u) && NoDoubleHyphen(u) by {
        assert forall i :: 0 <= i < |u| ==> u[i] == t[i];
      }
      CollapseRunsFixed(u);
      assert t == u + [t[|t| - 1]];
      if !IsSlugChar(t[|t| - 1]) && u != [] {
        assert t[|t| - 2] == u[|u| - 1];
      }
    }
  }

  /** Slugify leaves a slug unchanged. */
  lemma SlugifyFixesSlugs(t: string)
    requires IsSlug(t)
    ensures Slugify(t) == t
  {
    calc {
      Slugify(t);
      StripEdgeHyphens(CollapseRuns(StripCombiningMarks(Trim(Lower(t)))));
      { LowerFixesSlug(t); }
      StripEdgeHyphens(CollapseRuns(StripCombiningMarks(Trim(t))));
      { TrimFixesSlug(t); }
      StripEdgeHyphens(CollapseRuns(StripCombiningMarks(t)));
      { MarksFixSlug(t); }
      StripEdgeHyphens(CollapseRuns(t));
      { CollapseRunsFixed(t); }
      StripEdgeHyphens(t);
      { StripEdgesFixSlug(t); }
      t;
    }
  }

  lemma StripEdgesFixSlug(t: string)
    requires IsSlug(t)
    ensures StripEdgeHyphens(t) == t
  {
  }

  lemma TrimFixesSlug(t: string)
    requires IsSlug(t)
    ensures Trim(t) == t
  {
    if t != [] {
      SlugCharNotTrimmable(t[0]);
      SlugCharNotTrimmable(t[|t| - 1]);
    }
  }

  lemma SlugCharNotTrimmable(c: char)
    requires IsSlugChar(c)
    ensures !IsTrimmable(c)
  {
  }

  lemma MarksFixSlug(t: string)
    requires InSlugAlphabet(t)
    ensures StripCombiningMarks(t) == t
  {
    var noMark := (c: char) => !IsCombiningMark(c);
    assert forall i :: 0 <= i < |t| ==> noMark(t[i]);
    FilterKeepsAll(t, noMark);
  }

  lemma LowerFixesSlug(t: string)
    requires InSlugAlphabet(t)
    ensures Lower(t) == t
  {
    assert forall i :: 0 <= i < |t| ==> LowerChar(t[i]) == t[i];
  }

  /**
   * Two slugs typed with a space between them slugify to the two joined by
   * a hyphen: the space is the only character slugify rewrites.
   */
  lemma SlugifyJoinsWords(x: string, y: string)
    requires IsSlug(x) && IsSlug(y) && x != "" && y != ""
    ensures Slugify(x + " " + y) == x + "-" + y
  {
    var s := x + " " + y;
    assert Lower(s) == s by {
      forall i | 0 <= i < |s| ensures LowerChar(s[i]) == s[i] {
        if i > |x| {
          assert s[i] == y[i - |x| - 1];
        }
      }
    }
    assert IsTrimmed(s) by {
      assert s[0] == x[0] && s[|s| - 1] == y[|y| - 1];
      SlugCharNotTrimmable(x[0]);
      SlugCharNotTrimmable(y[|y| - 1]);
    }
    assert StripCombiningMarks(s) == s by {
      var noMark := (c: char) => !IsCombiningMark(c);
      forall i | 0 <= i < |s| ensures noMark(s[i]) {
        if i > |x| {
          assert s[i] == y[i - |x| - 1];
        }
      }
      FilterKeepsAll(s, noMark);
    }
    CollapseJoin(x, y);
    JoinedSlug(x, y);
    StripEdgesFixSlug(x + "-" + y);
  }

  /** The collapse step turns the one space between a slug and a slug-shaped tail into a hyphen. */
  lemma {:induction false} CollapseJoin(x: string, y: string)
    requires IsSlug(x) && x != ""
    requires InSlugAlphabet(y) && NoDoubleHyphen(y) && (y != [] ==> y[0] != '-')
    ensures CollapseRuns(x + " " + y) == x + "-" + y
  {
    var s := x + " " + y;
    if y == [] {
      assert s[..|s| - 1] == x;
      CollapseRunsFixed(x);
      assert x + "-" + y == x + ['-'];
    } else {
      var u := y[..|y| - 1];
      var c := y[|y| - 1];
      assert InSlugAlphabet(u) && NoDoubleHyphen(u) by {
        assert forall i :: 0 <= i < |u| ==> u[i] == y[i];
      }
      assert u != [] ==> u[0] == y[0];
      CollapseJoin(x, u);
      assert s[..|s| - 1] == x + " " + u;
      var p := x + "-" + u;
      assert x + "-" + y == p + [c];
      if !IsSlugChar(c) {
        assert c == '-';
        if u == [] {
          assert false;
        } else {
          assert p[|p| - 1] == u[|u| - 1] == y[|y| - 2];
        }
      }
    }
  }

  /** Two non-empty slugs joined by a hyphen make a slug. */
  lemma JoinedSlug(b: string, d: string)
    requires IsSlug(b) && b != ""
    requires IsSlug(d) && d != ""
    ensures IsSlug(b + "-" + d)
  {
    var slug := b + "-" + d;
    assert forall i :: 0 <= i < |b| ==> slug[i] == b[i];
    assert slug[|b|] == '-';
    assert forall i :: 0 <= i < |d| ==> slug[|b| + 1 + i] == d[i];
    assert InSlugAlphabet(slug) by {
      forall i | 0 <= i < |slug| ensures IsSlugChar(slug[i]) || slug[i] == '-' {
        if i > |b| {
          assert slug[i] == d[i - |b| - 1];
        }
      }
    }
    assert NoDoubleHyphen(slug) by {
      forall i | 0 <= i < |slug| - 1 ensures !(slug[i] == '-' && slug[i + 1] == '-') {
        if i == |b| - 1 {
          assert slug[i] == b[|b| - 1];
        } else if i >= |b| {
          assert slug[i + 1] == d[i - |b|];
          if i > |b| {
            assert slug[i] == d[i - |b| - 1];
          }
        }
      }
    }
  }

  /** Slugifying twice gives what slugifying once gives. */
  lemma SlugifyIdempotent(input: string)
    ensures Slugify(Slugify(input)) == Slugify(input)
  {
    SlugifyFixesSlugs(Slugify(input));
  }

  /**
   * Slugify keeps exactly the letters and digits of the lower-cased input,
   * in order: trimming, mark removal, collapsing and edge stripping only
   * ever remove or rewrite other characters.
   */
  lemma SlugifyKeepsLettersAndDigits(input: string)
    ensures Filter(Slugify(input), IsSlugChar) == Filter(Lower(input), IsSlugChar)
  {
    var l := Lower(input);
    var t := Trim(l);
    TrimKeepsSlugChars(l);
    var m := StripCombiningMarks(t);
    FilterOfFilter(t, c => !IsCombiningMark(c), IsSlugChar);
    var c := CollapseRuns(m);
    CollapseKeepsSlugChars(m);
    StripEdgesKeepsSlugChars(c);
  }

  lemma TrimKeepsSlugChars(s: string)
    ensures Filter(Trim(s), IsSlugChar) == Filter(s, IsSlugChar)
  {
    TrimStartKeepsSlugChars(s);
    TrimEndKeepsSlugChars(TrimStart(s));
  }

  lemma {:induction false} TrimStartKeepsSlugChars(s: string)
    ensures Filter(TrimStart(s), IsSlugChar) == Filter(s, IsSlugChar)
  {
    if s != [] && IsTrimmable(s[0]) {
      TrimStartKeepsSlugChars(s[1..]);
    }
  }

  lemma {:induction false} TrimEndKeepsSlugChars(s: string)
    ensures Filter(TrimEnd(s), IsSlugChar) == Filter(s, IsSlugChar)
  {
    if s != [] && IsTrimmable(s[|s| - 1]) {
      var u := s[..|s| - 1];
      TrimEndKeepsSlugChars(u);
      assert s == u + [s[|s| - 1]];
      FilterAppend(u, [s[|s| - 1]], IsSlugChar);
    }
  }

  lemma {:induction false} CollapseKeepsSlugChars(s: string)
    ensures Filter(CollapseRuns(s), IsSlugChar) == Filter(s, IsSlugChar)
  {
    if s != [] {
      var u := s[..|s| - 1];
      var c := s[|s| - 1];
      var p := CollapseRuns(u);
      assert s == u + [c];
      var tail := Filter([c], IsSlugChar);
      calc {
        Filter(s, IsSlugChar);
        { FilterAppend(u, [c], IsSlugChar); }
        Filter(u, IsSlugChar) + tail;
        { CollapseKeepsSlugChars(u); }
        Filter(p, IsSlugChar) + tail;
      }
      if IsSlugChar(c) {
        assert CollapseRuns(s) == p + [c];
        FilterAppend(p, [c], IsSlugChar);
      } else if p != [] && p[|p| - 1] == '-' {
        assert CollapseRuns(s) == p;
        assert tail == [];
      } else {
        assert CollapseRuns(s) == p + ['-'];
        FilterAppend(p, ['-'], IsSlugChar);
        assert tail == [] && Filter(['-'], IsSlugChar) == [];
      }
    }
  }

  lemma StripEdgesKeepsSlugChars(s: string)
    ensures Filter(StripEdgeHyphens(s), IsSlugChar) == Filter(s, IsSlugChar)
  {
    var t := if s != [] && s[0] == '-' then s[1..] else s;
    var r := if t != [] && t[|t| - 1] == '-' then t[..|t| - 1] else t;
    assert StripEdgeHyphens(s) == r;
    if s != [] && s[0] == '-' {
      assert s == ['-'] + t;
      HyphenFront(t);
    }
    if t != [] && t[|t| - 1] == '-' {
      assert t == r + ['-'];
      HyphenBack(r);
    }
  }

  /** A leading hyphen carries no slug character. */
  lemma HyphenFront(t: string)
    ensures Filter(['-'] + t, IsSlugChar) == Filter(t, IsSlugChar)
  {
    FilterAppend(['-'], t, IsSlugChar);
    assert Filter(['-'], IsSlugChar) == [];
  }

  /** A trailing hyphen carries no slug character. */
  lemma HyphenBack(r: string)
    ensures Filter(r + ['-'], IsSlugChar) == Filter(r, IsSlugChar)
  {
    FilterAppend(r, ['-'], IsSlugChar);
    assert Filter(['-'], IsSlugChar) == [];
  }

  /** `base || 'project'`. */
  function CleanBase(base: string): (b: string)
    ensures b != ""
    ensures base != "" ==> b == base
  {
    if base == "" then "project" else base
  }

  /** The `n`-th candidate `ensureUniqueSlug` looks up: the base, then `base-2`, `base-3`, ... */
  function Candidate(base: string, n: nat): string
    requires n >= 1
  {
    if n == 1 then base else base + "-" + Decimal(n)
  }

  /** No two lookups of one search ask for the same slug. */
  lemma CandidatesDistinct(base: string, m: nat, n: nat)
    requires 1 <= m < n
    ensures Candidate(base, m) != Candidate(base, n)
  {
    var cn := Candidate(base, n);
    assert cn[|base| + 1..] == Decimal(n);
    if m > 1 && Candidate(base, m) == cn {
      var cm := Candidate(base, m);
      assert cm[|base| + 1..] == Decimal(m);
      DecimalInjective(m, n);
    }
  }

  /** The slugs looked up, and found taken, before the `n`-th lookup. */
  function Tried(base: string, n: nat): set<string>
    requires n >= 1
  {
    set k | 1 <= k < n :: Candidate(base, k)
  }

  lemma TriedStep(base: string, n: nat)
    requires n >= 1
    ensures Candidate(base, n) !in Tried(base, n)
    ensures Tried(base, n + 1) == Tried(base, n) + {Candidate(base, n)}
  {
    forall k | 1 <= k < n ensures Candidate(base, k) != Candidate(base, n) {
      CandidatesDistinct(base, k, n);
    }
  }

  /**
   * The index at which a search that has reached its `n`-th lookup stops:
   * the least `k >= n` whose candidate is not taken. It exists for every
   * finite store, since the candidates are pairwise distinct.
   */
  function FirstFreeFrom(base: string, taken: set<string>, n: nat): (k: nat)
    requires n >= 1
    ensures k >= n
    ensures Candidate(base, k) !in taken
    ensures forall j :: n <= j < k ==> Candidate(base, j) in taken
    decreases taken - Tried(base, n)
  {
    if Candidate(base, n) !in taken then n
    else
      TriedStep(base, n);
      FirstFreeFrom(base, taken, n + 1)
  }

  /** The number of store lookups `ensureUniqueSlug(base)` makes; the last one finds the slug free. */
  function LookupCount(base: string, taken: set<string>): (k: nat)
    ensures k >= 1
    ensures Candidate(CleanBase(base), k) !in taken
    ensures forall j :: 1 <= j < k ==> Candidate(CleanBase(base), j) in taken
  {
    FirstFreeFrom(CleanBase(base), taken, 1)
  }

  /**
   * What `ensureUniqueSlug(base)` returns when the stored slugs are `taken`:
   * a slug not in the store, the cleaned base itself when that is free, and
   * otherwise `base-n` for the least `n >= 2` that is free.
   */
  function UniqueSlug(base: string, taken: set<string>): (slug: string)
    ensures slug !in taken
    ensures CleanBase(base) !in taken ==> slug == CleanBase(base)
    ensures CleanBase(base) in taken ==>
      && LookupCount(base, taken) >= 2
      && slug == CleanBase(base) + "-" + Decimal(LookupCount(base, taken))
      && forall j :: 2 <= j < LookupCount(base, taken) ==> CleanBase(base) + "-" + Decimal(j) in taken
  {
    var k := LookupCount(base, taken);
    assert Candidate(CleanBase(base), 1) == CleanBase(base);
    assert forall j :: 2 <= j < k ==> Candidate(CleanBase(base), j) == CleanBase(base) + "-" + Decimal(j);
    Candidate(CleanBase(base), k)
  }

  /** An allocated slug keeps the slug shape when the base has it. */
  lemma UniqueSlugIsSlug(base: string, taken: set<string>)
    requires IsSlug(base)
    ensures IsSlug(UniqueSlug(base, taken))
  {
    var b := CleanBase(base);
    assert IsSlug(b) by {
      if base == "" {
        assert b == "project";
      }
    }
    if b in taken {
      SuffixedSlug(b, Decimal(LookupCount(base, taken)));
    }
  }

  /** A non-empty slug, a hyphen and a run of digits make a slug. */
  lemma SuffixedSlug(b: string, d: string)
    requires IsSlug(b) && b != ""
    requires d != [] && forall i :: 0 <= i < |d| ==> '0' <= d[i] <= '9'
    ensures IsSlug(b + "-" + d)
  {
    JoinedSlug(b, d);
  }

  /**
   * `ensureUniqueSlug(base)` against a store whose slugs are `taken`: look
   * the candidate up, return it when no row has it, otherwise try the next
   * suffix. The loop has no bound; it ends because `taken` is finite and no
   * candidate is looked up twice.
   */
  method EnsureUniqueSlug(base: string, taken: set<string>) returns (slug: string)
    ensures slug == UniqueSlug(base, taken)
    ensures slug !in taken
  {
    var cleanBase := if base == "" then "project" else base;
    var candidate := cleanBase;
    var n: nat := 1;
    while true
      invariant n >= 1 && candidate == Candidate(cleanBase, n)
      invariant FirstFreeFrom(cleanBase, taken, n) == FirstFreeFrom(cleanBase, taken, 1)
      decreases taken - Tried(cleanBase, n)
    {
      if candidate !in taken {
        return candidate;
      }
      TriedStep(cleanBase, n);
      n := n + 1;
      candidate := cleanBase + "-" + Decimal(n);
    }
  }
}

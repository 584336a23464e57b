/**
 * The admin project form (components/admin/project-form.tsx): the state the
 * form keeps between renders and the updates its handlers make to it, the
 * auto-slug rule, and the `FormData` it submits. The form uses the same
 * `slugify` as the server (`Slugs.Slugify`): the two copies are the same
 * expression.
 */
module ProjectForm {
  import opened Wrappers
  import opened Seqs
  import opened JsText
  import opened Records
  import opened Slugs
  import opened ProjectsRoute

  const DataUrlPrefix: string := "data:image/*;base64,"

  /** `b64ToDataUrl`: `''` for a missing or empty encoding, else an image data URL carrying it. */
  function B64ToDataUrl(b64: Option<string>): (r: string)
    ensures r == "" <==> b64.None? || b64.value == ""
    ensures r != "" ==> |r| > |DataUrlPrefix| && r[..|DataUrlPrefix|] == DataUrlPrefix && r[|DataUrlPrefix|..] == b64.value
  {
    if b64.None? || b64.value == "" then "" else DataUrlPrefix + b64.value
  }

  // ---------------------------------------------------------------- stack

  function NotKey(key: string): string -> bool {
    x => x != key
  }

  /** `toggleStack`'s update: drop every occurrence of a present key, append an absent one. */
  function Toggle(stack: seq<string>, key: string): (r: seq<string>)
    ensures key in r <==> key !in stack
    ensures key !in stack ==> r == stack + [key]
  {
    if key in stack then Filter(stack, NotKey(key)) else stack + [key]
  }

  /** Toggling an absent key twice gives back the original list. */
  lemma ToggleTwiceRestores(stack: seq<string>, key: string)
    requires key !in stack
    ensures Toggle(Toggle(stack, key), key) == stack
  {
    assert key in stack + [key];
    FilterAppend(stack, [key], NotKey(key));
    FilterKeepsAll(stack, NotKey(key));
    FilterKeepsNone([key], NotKey(key));
  }

  /** Toggling one key leaves the other keys, and their order, as they were. */
  lemma ToggleKeepsOthers(stack: seq<string>, key: string)
    ensures Filter(Toggle(stack, key), NotKey(key)) == Filter(stack, NotKey(key))
  {
    if key in stack {
      FilterOfFilter(stack, NotKey(key), NotKey(key));
    } else {
      FilterAppend(stack, [key], NotKey(key));
      FilterKeepsNone([key], NotKey(key));
    }
  }

  /** `STACK_OPTIONS`, without the icons. */
  datatype StackOption = StackOption(key: string, labelText: string)

  const StackOptions: seq<StackOption> := [
    StackOption("nextjs", "Next.js"),
    StackOption("react", "React"),
    StackOption("tailwind", "Tailwind"),
    StackOption("typescript", "TypeScript"),
    StackOption("supabase", "Supabase"),
    StackOption("postgres", "PostgreSQL"),
    StackOption("nodejs", "Node.js"),
    StackOption("express", "Express"),
    StackOption("prisma", "Prisma"),
    StackOption("docker", "Docker"),
    StackOption("vercel", "Vercel"),
    StackOption("figma", "Figma"),
    StackOption("flutter", "Flutter"),
    StackOption("react-native", "React Native"),
    StackOption("firebase", "Firebase"),
    StackOption("github", "GitHub")
  ]

  /** `new Map(options.map(o => [o.key, o.label])).get(key)`: the label of the last option with that key. */
  function LabelFor(options: seq<StackOption>, key: string): (r: Option<string>)
    ensures r.None? <==> forall i :: 0 <= i < |options| ==> options[i].key != key
    ensures r.Some? ==> StackOption(key, r.value) in options
  {
    if options == [] then None
    else if options[|options| - 1].key == key then Some(options[|options| - 1].labelText)
    else
      var r := LabelFor(options[..|options| - 1], key);
      assert r.Some? ==> StackOption(key, r.value) in options[..|options| - 1];
      r
  }

  /** `selectedStackLabels`: one label per stack key, in order; an unknown key is its own label. */
  function SelectedStackLabels(stack: seq<string>): (r: seq<string>)
    ensures |r| == |stack|
    ensures forall i :: 0 <= i < |stack| ==>
      if exists j :: 0 <= j < |StackOptions| && StackOptions[j].key == stack[i]
      then StackOption(stack[i], r[i]) in StackOptions
      else r[i] == stack[i]
  {
    MapSeq(stack, k => match LabelFor(StackOptions, k) case Some(l) => l case None => k)
  }

  // -------------------------------------------------------------- mockups

  /** `s.filter((_, i) => i !== idx)`, with `start` the index of `s[0]`. */
  function KeepOtherIndices<T>(s: seq<T>, idx: int, start: int): seq<T>
    decreases |s|
  {
    if s == [] then []
    else (if start == idx then [] else [s[0]]) + KeepOtherIndices(s[1..], idx, start + 1)
  }

  lemma {:induction false} KeepOtherIndicesRemovesOne<T>(s: seq<T>, idx: int, start: int)
    ensures KeepOtherIndices(s, idx, start) ==
      if start <= idx < start + |s| then s[..idx - start] + s[idx - start + 1..] else s
    decreases |s|
  {
    if s != [] {
      KeepOtherIndicesRemovesOne(s[1..], idx, start + 1);
      if start < idx < start + |s| {
        assert s[..idx - start] == [s[0]] + s[1..][..idx - start - 1];
        assert s[idx - start + 1..] == s[1..][idx - start..];
      } else if idx != start {
        assert s == [s[0]] + s[1..];
      }
    }
  }

  /** `removeMockupAt`'s update of one list: exactly the element at `idx` goes, the rest keep their order. */
  function RemoveAt<T>(s: seq<T>, idx: int): (r: seq<T>)
    ensures 0 <= idx < |s| ==> r == s[..idx] + s[idx + 1..]
    ensures !(0 <= idx < |s|) ==> r == s
  {
    KeepOtherIndicesRemovesOne(s, idx, 0);
    KeepOtherIndices(s, idx, 0)
  }

  // ----------------------------------------------------------------- tags

  /** The submitted tags: the comma-separated pieces of the tags text, trimmed, empties dropped. */
  function ParseTags(text: string): (r: seq<string>)
    ensures forall i :: 0 <= i < |r| ==> r[i] != "" && ',' !in r[i] && IsTrimmed(r[i])
  {
    var pieces := Split(text, ',');
    var r := CleanList(pieces);
    CleanListFromPieces(pieces, ',');
    r
  }

  /** Cleaning pieces that lack a character gives elements that lack it too. */
  lemma CleanListFromPieces(pieces: seq<string>, c: char)
    requires forall k :: 0 <= k < |pieces| ==> c !in pieces[k]
    ensures forall i :: 0 <= i < |CleanList(pieces)| ==> c !in CleanList(pieces)[i]
  {
    var trimmed := MapSeq(pieces, Trim);
    var r := CleanList(pieces);
    forall i | 0 <= i < |r| ensures c !in r[i] {
      assert r[i] in trimmed;
      var j :| 0 <= j < |trimmed| && trimmed[j] == r[i];
      assert c !in pieces[j];
    }
  }

  lemma CleanListCons(t: string, rest: seq<string>)
    requires t != "" && IsTrimmed(t)
    ensures CleanList([t] + rest) == [t] + CleanList(rest)
  {
    MapAppend([t], rest, Trim);
    FilterAppend(MapSeq([t], Trim), MapSeq(rest, Trim), NonEmpty);
    assert MapSeq([t], Trim) == [t];
  }

  lemma CleanListLeadingSpace(text: string)
    ensures CleanList(Split([' '] + text, ',')) == CleanList(Split(text, ','))
  {
    var p := Split(text, ',');
    var q := Split([' '] + text, ',');
    SplitFreePrefix([' '], text, ',');
    TrimLeadingSpace(p[0]);
    MapSameHead(q, p, Trim);
  }

  /** A tag is clean when it is non-empty, comma-free and trimmed. */
  predicate CleanTag(t: string) {
    t != "" && ',' !in t && IsTrimmed(t)
  }

  lemma ParseTagsEmpty()
    ensures ParseTags("") == []
  {
    assert Split("", ',') == [""];
    assert MapSeq([""], Trim) == [""];
  }

  lemma ParseTagsSingle(t: string)
    requires CleanTag(t)
    ensures ParseTags(t) == [t]
  {
    SplitFreePrefix(t, "", ',');
    assert t + "" == t;
    assert Split(t, ',') == [t] + [];
    CleanListCons(t, []);
    assert MapSeq([], Trim) == [];
  }

  /** A clean tag followed by `, ` parses as that tag in front of the rest. */
  lemma ParseTagsStep(t: string, rest: string)
    requires CleanTag(t)
    ensures ParseTags(t + ", " + rest) == [t] + ParseTags(rest)
  {
    assert t + ", " + rest == t + [','] + ([' '] + rest);
    calc {
      ParseTags(t + [','] + ([' '] + rest));
      CleanList(Split(t + [','] + ([' '] + rest), ','));
      { SplitAtSeparator(t, [' '] + rest, ','); }
      CleanList([t] + Split([' '] + rest, ','));
      { CleanListCons(t, Split([' '] + rest, ',')); }
      [t] + CleanList(Split([' '] + rest, ','));
      { CleanListLeadingSpace(rest); }
      [t] + ParseTags(rest);
    }
  }

  /** Tags loaded with `join(', ')` come back unchanged when each is non-empty, comma-free and trimmed. */
  lemma {:induction false} TagsRoundTrip(tags: seq<string>)
    requires forall i :: 0 <= i < |tags| ==> CleanTag(tags[i])
    ensures ParseTags(Join(tags, ", ")) == tags
  {
    if tags == [] {
      ParseTagsEmpty();
    } else if |tags| == 1 {
      ParseTagsSingle(tags[0]);
    } else {
      var tail := tags[1..];
      assert forall i :: 0 <= i < |tail| ==> CleanTag(tail[i]) by {
        forall i | 0 <= i < |tail| ensures CleanTag(tail[i]) {
          assert tail[i] == tags[i + 1];
        }
      }
      var rest := Join(tail, ", ");
      assert Join(tags, ", ") == tags[0] + ", " + rest;
      TagsRoundTrip(tail);
      ParseTagsStep(tags[0], rest);
      assert tags == [tags[0]] + tail;
    }
  }

  /** Parsing the tags text twice, as the form and then the server do, changes nothing. */
  lemma ParseTagsClean(text: string)
    ensures CleanList(ParseTags(text)) == ParseTags(text)
  {
    CleanListIdempotent(Split(text, ','));
  }

  // ---------------------------------------------------------- form state

  datatype Mode = Create | Edit

  /** The `formData` state: every field as the inputs hold it. */
  datatype FormFields = FormFields(
    title: string,
    slug: string,
    description: string,
    tags: string,
    stack: seq<string>,
    projectType: string,
    projectUrl: string,
    githubUrl: string,
    featured: bool,
    status: string)

  /** The initial `formData` for a project being edited, or for none. */
  function InitialFields(project: Option<Project>): (f: FormFields)
    ensures project.None? ==> f == FormFields("", "", "", "", [], "web", "", "", false, "published")
    ensures project.Some? && project.value.tags.Some? ==> f.tags == Join(project.value.tags.value, ", ")
    ensures f.projectType != "" && f.status != ""
    ensures f.slug == (if project.Some? then OrEmpty(project.value.slug) else "")
  {
    match project
    case None => FormFields("", "", "", "", [], "web", "", "", false, "published")
    case Some(p) =>
      FormFields(
        title := OrEmpty(p.title),
        slug := OrEmpty(p.slug),
        description := OrEmpty(p.description),
        tags := if p.tags.Some? then Join(p.tags.value, ", ") else "",
        stack := if p.stack.Some? then p.stack.value else [],
        projectType := OrDefault(p.projectType, "web"),
        projectUrl := OrEmpty(p.projectUrl),
        githubUrl := OrEmpty(p.githubUrl),
        featured := p.featured,
        status := OrDefault(p.status, "published"))
  }

  /**
   * The slug auto-sync effect's decision: leave the slug alone when the
   * auto-slug is empty or the slug was edited by hand; in create mode take
   * the auto-slug, in edit mode only while the slug still equals the one the
   * form was opened with.
   */
  function SyncedSlug(mode: Mode, touched: bool, slug: string, initialSlug: string, auto: string): (r: string)
    ensures r == slug || r == auto
    ensures auto == "" || touched ==> r == slug
    ensures mode == Create && !touched && auto != "" ==> r == auto
    ensures mode == Edit && slug != initialSlug ==> r == slug
    ensures mode == Edit && !touched && auto != "" && slug == initialSlug ==> r == auto
  {
    if auto == "" then slug
    else if mode == Create then (if !touched then auto else slug)
    else if !touched && slug == initialSlug then auto
    else slug
  }

  /** `initialSlugRef`: the slug the edited project had, or `''`. */
  function InitialSlug(project: Option<Project>): (s: string)
    ensures s == InitialFields(project).slug
  {
    if project.Some? then OrEmpty(project.value.slug) else ""
  }

  /**
   * The form fields right after mounting, once the slug effect has run. At
   * that moment the slug still equals the initial slug and has not been
   * touched, so in edit mode as well as in create mode a title with a
   * non-empty slug replaces the stored slug.
   */
  function MountedFields(project: Option<Project>, mode: Mode): (f: FormFields)
    ensures f == InitialFields(project).(slug := f.slug)
    ensures Slugify(f.title) != "" ==> f.slug == Slugify(f.title)
    ensures Slugify(f.title) == "" ==> f.slug == InitialSlug(project)
  {
    var fields := InitialFields(project);
    fields.(slug := SyncedSlug(mode, false, fields.slug, InitialSlug(project), Slugify(fields.title)))
  }

  /** The initial cover preview: the stored cover as a data URL, `''` without one. */
  function InitialCoverPreview(project: Option<Project>): (r: string)
    ensures r == "" <==> project.None? || project.value.coverImageB64.None? || project.value.coverImageB64.value == ""
    ensures r != "" ==> r == DataUrlPrefix + project.value.coverImageB64.value
  {
    B64ToDataUrl(if project.Some? then project.value.coverImageB64 else None)
  }

  /** The initial mockup previews: one data URL per stored mockup. */
  function InitialMockupPreviews(project: Option<Project>): (r: seq<string>)
    ensures project.Some? && project.value.mockupsB64.Some? ==> |r| == |project.value.mockupsB64.value|
    ensures !(project.Some? && project.value.mockupsB64.Some?) ==> r == []
    ensures project.Some? && project.value.mockupsB64.Some? ==>
      forall i :: 0 <= i < |r| ==> r[i] == B64ToDataUrl(Some(project.value.mockupsB64.value[i]))
  {
    if project.Some? && project.value.mockupsB64.Some?
    then MapSeq(project.value.mockupsB64.value, (b: string) => B64ToDataUrl(Some(b)))
    else []
  }

  /** The `String(!!featured)` text the form sends. */
  function FeaturedText(featured: bool): (s: string)
    ensures s == "true" || s == "false"
  {
    if featured then "true" else "false"
  }

  function MockupEntry(b64: string): FormEntry {
    FormEntry("mockups", File(b64))
  }

  /** The text entries of `handleSubmit`'s `FormData`, in the order the handler sets them, given the JSON texts of the tags and the stack. */
  function TextEntries(f: FormFields, tagsJson: string, stackJson: string): (fd: Form)
    ensures |fd| == 10
  {
    [ FormEntry("title", Text(f.title)),
      FormEntry("slug", Text(f.slug)),
      FormEntry("description", Text(f.description)),
      FormEntry("type", Text(f.projectType)),
      FormEntry("project_url", Text(f.projectUrl)),
      FormEntry("github_url", Text(f.githubUrl)),
      FormEntry("featured", Text(FeaturedText(f.featured))),
      FormEntry("status", Text(f.status)),
      FormEntry("tags", Text(tagsJson)),
      FormEntry("stack", Text(stackJson)) ]
  }

  /** The file entries: the cover if one was chosen, then one `mockups` entry per chosen file. */
  function FileEntries(cover: Option<string>, mockups: seq<string>): (fd: Form)
    ensures |fd| == (if cover.Some? then 1 else 0) + |mockups|
  {
    (if cover.Some? then [FormEntry("cover", File(cover.value))] else []) + MapSeq(mockups, MockupEntry)
  }

  /** `handleSubmit`'s `FormData`; `stringify` is `JSON.stringify`. */
  function EncodeForm(f: FormFields, cover: Option<string>, mockups: seq<string>,
                      stringify: seq<string> -> string): (fd: Form)
    ensures |fd| == 10 + (if cover.Some? then 1 else 0) + |mockups|
  {
    TextEntries(f, stringify(ParseTags(f.tags)), stringify(f.stack)) + FileEntries(cover, mockups)
  }

  /**
   * The form state. Each method is one handler's update (or, for
   * `RunSlugEffect`, one run of the slug effect); `Media()` groups the
   * file fields the slug and stack handlers leave alone.
   */
  class ProjectFormState {
    const mode: Mode
    const initialSlug: string
    var formData: FormFields
    var slugTouched: bool
    var coverFile: Option<string>
    var mockupFiles: seq<string>
    var coverPreview: string
    var mockupPreviews: seq<string>

    /** `autoSlug`, recomputed from the title. */
    function AutoSlug(): (s: string)
      reads this
      ensures IsSlug(s)
    {
      Slugify(formData.title)
    }

    function Media(): (Option<string>, seq<string>, string, seq<string>)
      reads this
    {
      (coverFile, mockupFiles, coverPreview, mockupPreviews)
    }

    /** In create mode an untouched slug follows the title whenever the title has a non-empty slug. */
    predicate CreateSlugFollowsTitle()
      reads this
    {
      mode == Create && !slugTouched && AutoSlug() != "" ==> formData.slug == AutoSlug()
    }

    /** Mounting the form: the initial state, then one run of the slug effect. */
    constructor (project: Option<Project>, mode: Mode)
      ensures this.mode == mode
      ensures !slugTouched
      ensures initialSlug == InitialSlug(project)
      ensures formData == MountedFields(project, mode)
      ensures coverFile.None? && mockupFiles == []
      ensures coverPreview == InitialCoverPreview(project)
      ensures mockupPreviews == InitialMockupPreviews(project)
      ensures CreateSlugFollowsTitle()
    {
      this.mode := mode;
      initialSlug := InitialSlug(project);
      slugTouched := false;
      coverFile := None;
      mockupFiles := [];
      coverPreview := InitialCoverPreview(project);
      mockupPreviews := InitialMockupPreviews(project);
      var fields := MountedFields(project, mode);
      var auto := Slugify(fields.title);
      assert auto != "" ==> fields.slug == auto;
      formData := fields;
      new;
      assert AutoSlug() == auto;
    }

    /** One run of the slug effect. */
    method RunSlugEffect()
      modifies this
      ensures formData == old(formData).(slug :=
        SyncedSlug(mode, slugTouched, old(formData.slug), initialSlug, Slugify(old(formData.title))))
      ensures slugTouched == old(slugTouched) && Media() == old(Media())
    {
      formData := formData.(slug := SyncedSlug(mode, slugTouched, formData.slug, initialSlug, AutoSlug()));
    }

    /** Typing a title; the effect runs only when the auto-slug changes. */
    method EditTitle(title: string)
      requires CreateSlugFollowsTitle()
      modifies this
      ensures formData.title == title
      ensures formData == old(formData).(title := title, slug := formData.slug)
      ensures old(slugTouched) ==> formData.slug == old(formData.slug)
      ensures Slugify(title) == Slugify(old(formData.title)) ==> formData.slug == old(formData.slug)
      ensures Slugify(title) != Slugify(old(formData.title)) ==>
        formData.slug == SyncedSlug(mode, slugTouched, old(formData.slug), initialSlug, Slugify(title))
      ensures slugTouched == old(slugTouched) && Media() == old(Media())
      ensures CreateSlugFollowsTitle()
    {
      var before := AutoSlug();
      var auto := Slugify(title);
      formData := formData.(title := title);
      assert AutoSlug() == auto;
      if auto != before {
        RunSlugEffect();
      }
    }

    /** Typing in the slug input marks the slug as edited by hand. */
    method EditSlug(slug: string)
      modifies this
      ensures slugTouched
      ensures formData == old(formData).(slug := slug)
      ensures Media() == old(Media())
      ensures CreateSlugFollowsTitle()
    {
      slugTouched := true;
      formData := formData.(slug := slug);
    }

    /** `resetSlugToAuto`: back to automatic, with the slug of the current title. */
    method ResetSlugToAuto()
      modifies this
      ensures !slugTouched
      ensures formData == old(formData).(slug := Slugify(old(formData.title)))
      ensures IsSlug(formData.slug)
      ensures Media() == old(Media())
      ensures CreateSlugFollowsTitle()
    {
      slugTouched := false;
      formData := formData.(slug := Slugify(formData.title));
    }

    /** `toggleStack`. */
    method ToggleStack(key: string)
      modifies this
      ensures formData == old(formData).(stack := Toggle(old(formData.stack), key))
      ensures slugTouched == old(slugTouched) && Media() == old(Media())
      ensures old(CreateSlugFollowsTitle()) ==> CreateSlugFollowsTitle()
    {
      formData := formData.(stack := Toggle(formData.stack, key));
    }

    /** Choosing a cover file (or clearing the choice) replaces the selected cover. */
    method SelectCover(file: Option<string>)
      modifies this
      ensures coverFile == file
      ensures formData == old(formData) && slugTouched == old(slugTouched)
      ensures mockupFiles == old(mockupFiles) && coverPreview == old(coverPreview) && mockupPreviews == old(mockupPreviews)
    {
      coverFile := file;
    }

    /** Choosing mockup files replaces the selection. */
    method SelectMockups(files: seq<string>)
      modifies this
      ensures mockupFiles == files
      ensures formData == old(formData) && slugTouched == old(slugTouched)
      ensures coverFile == old(coverFile) && coverPreview == old(coverPreview) && mockupPreviews == old(mockupPreviews)
    {
      mockupFiles := files;
    }

    /** `removeMockupAt`: from the new files if any were chosen, else from the previews. */
    method RemoveMockupAt(idx: int)
      modifies this
      ensures old(mockupFiles) != [] ==>
        mockupFiles == RemoveAt(old(mockupFiles), idx) && mockupPreviews == old(mockupPreviews)
      ensures old(mockupFiles) == [] ==>
        mockupFiles == [] && mockupPreviews == RemoveAt(old(mockupPreviews), idx)
      ensures formData == old(formData) && slugTouched == old(slugTouched)
      ensures coverFile == old(coverFile) && coverPreview == old(coverPreview)
    {
      if |mockupFiles| > 0 {
        mockupFiles := RemoveAt(mockupFiles, idx);
        return;
      }
      mockupPreviews := RemoveAt(mockupPreviews, idx);
    }

    /** The `FormData` a submit sends: the current fields and the chosen files. */
    function Submission(stringify: seq<string> -> string): (fd: Form)
      reads this
      ensures fd == EncodeForm(formData, coverFile, mockupFiles, stringify)
      ensures |fd| == 10 + (if coverFile.Some? then 1 else 0) + |mockupFiles|
    {
      EncodeForm(formData, coverFile, mockupFiles, stringify)
    }
  }
}

/**
 * What the create handler (app/api/admin/projects/route.ts) reads back from
 * the `FormData` the admin form (components/admin/project-form.tsx) submits.
 */
module FormSubmission {
  import opened Wrappers
  import opened Seqs
  import opened JsText
  import opened ProjectsRoute
  import opened ProjectForm
  import opened Records

  /** `Get` on a concatenation looks in the second part only when the first has no such name. */
  lemma {:induction false} GetAppend(a: Form, b: Form, name: string)
    ensures Get(a + b, name) == if Get(a, name).Some? then Get(a, name) else Get(b, name)
  {
    if a != [] {
      assert (a + b)[1..] == a[1..] + b;
      GetAppend(a[1..], b, name);
    } else {
      assert a + b == b;
    }
  }

  /** `getAll` on a concatenation. */
  lemma {:induction false} GetAllAppend(a: Form, b: Form, name: string)
    ensures GetAll(a + b, name) == GetAll(a, name) + GetAll(b, name)
  {
    if a != [] {
      var ab := a + b;
      assert ab[0] == a[0] && ab[1..] == a[1..] + b;
      GetAllAppend(a[1..], b, name);
      var head: seq<FormValue> := if a[0].name == name then [a[0].value] else [];
      assert GetAll(ab, name) == head + GetAll(a[1..] + b, name);
      assert GetAll(a, name) == head + GetAll(a[1..], name);
    } else {
      assert a + b == b;
    }
  }

  /** One `mockups` file entry per file reads back as the files, in order. */
  lemma {:induction false} MockupsReadBack(mockups: seq<string>)
    ensures Get(MapSeq(mockups, MockupEntry), "cover").None?
    ensures MockupImages(GetAll(MapSeq(mockups, MockupEntry), "mockups")) == mockups
  {
    if mockups != [] {
      var m := MapSeq(mockups, MockupEntry);
      assert m[1..] == MapSeq(mockups[1..], MockupEntry);
      MockupsReadBack(mockups[1..]);
      assert GetAll(m, "mockups") == [File(mockups[0])] + GetAll(m[1..], "mockups");
      assert mockups == [mockups[0]] + mockups[1..];
    }
  }

  /** Reading the text entries back by name: each is the first entry of its name. */
  lemma TextEntryTitle(f: FormFields, tagsJson: string, stackJson: string)
    ensures Get(TextEntries(f, tagsJson, stackJson), "title") == Some(Text(f.title))
  {
    GetFirstOf(TextEntries(f, tagsJson, stackJson), 0, "title");
  }

  lemma TextEntrySlug(f: FormFields, tagsJson: string, stackJson: string)
    ensures Get(TextEntries(f, tagsJson, stackJson), "slug") == Some(Text(f.slug))
  {
    var fd := TextEntries(f, tagsJson, stackJson);
    forall i | 0 <= i < 1 ensures fd[i].name != "slug" {
      {}
    }
    GetFirstOf(fd, 1, "slug");
  }

  lemma TextEntryFeatured(f: FormFields, tagsJson: string, stackJson: string)
    ensures Get(TextEntries(f, tagsJson, stackJson), "featured") == Some(Text(FeaturedText(f.featured)))
  {
    var fd := TextEntries(f, tagsJson, stackJson);
    forall i | 0 <= i < 6 ensures fd[i].name != "featured" {
      if i == 0 {} else if i == 1 {} else if i == 2 {} else if i == 3 {} else if i == 4 {} else {}
    }
    GetFirstOf(fd, 6, "featured");
  }

  lemma TextEntryTags(f: FormFields, tagsJson: string, stackJson: string)
    ensures Get(TextEntries(f, tagsJson, stackJson), "tags") == Some(Text(tagsJson))
  {
    var fd := TextEntries(f, tagsJson, stackJson);
    forall i | 0 <= i < 8 ensures fd[i].name != "tags" {
      if i == 0 {} else if i == 1 {} else if i == 2 {} else if i == 3 {} else if i == 4 {} else if i == 5 {} else if i == 6 {} else {}
    }
    GetFirstOf(fd, 8, "tags");
  }

  lemma TextEntryStack(f: FormFields, tagsJson: string, stackJson: string)
    ensures Get(TextEntries(f, tagsJson, stackJson), "stack") == Some(Text(stackJson))
  {
    var fd := TextEntries(f, tagsJson, stackJson);
    forall i | 0 <= i < 9 ensures fd[i].name != "stack" {
      if i == 0 {} else if i == 1 {} else if i == 2 {} else if i == 3 {} else if i == 4 {} else if i == 5 {} else if i == 6 {} else if i == 7 {} else {}
    }
    GetFirstOf(fd, 9, "stack");
  }

  lemma TextEntryDescription(f: FormFields, tagsJson: string, stackJson: string)
    ensures Get(TextEntries(f, tagsJson, stackJson), "description") == Some(Text(f.description))
  {
    var fd := TextEntries(f, tagsJson, stackJson);
    forall i | 0 <= i < 2 ensures fd[i].name != "description" {
      if i == 0 {} else {}
    }
    GetFirstOf(fd, 2, "description");
  }

  lemma TextEntryType(f: FormFields, tagsJson: string, stackJson: string)
    ensures Get(TextEntries(f, tagsJson, stackJson), "type") == Some(Text(f.projectType))
  {
    var fd := TextEntries(f, tagsJson, stackJson);
    forall i | 0 <= i < 3 ensures fd[i].name != "type" {
      if i == 0 {} else if i == 1 {} else {}
    }
    GetFirstOf(fd, 3, "type");
  }

  lemma TextEntryProjectUrl(f: FormFields, tagsJson: string, stackJson: string)
    ensures Get(TextEntries(f, tagsJson, stackJson), "project_url") == Some(Text(f.projectUrl))
  {
    var fd := TextEntries(f, tagsJson, stackJson);
    forall i | 0 <= i < 4 ensures fd[i].name != "project_url" {
      if i == 0 {} else if i == 1 {} else if i == 2 {} else {}
    }
    GetFirstOf(fd, 4, "project_url");
  }

  lemma TextEntryGithubUrl(f: FormFields, tagsJson: string, stackJson: string)
    ensures Get(TextEntries(f, tagsJson, stackJson), "github_url") == Some(Text(f.githubUrl))
  {
    var fd := TextEntries(f, tagsJson, stackJson);
    forall i | 0 <= i < 5 ensures fd[i].name != "github_url" {
      if i == 0 {} else if i == 1 {} else if i == 2 {} else if i == 3 {} else {}
    }
    GetFirstOf(fd, 5, "github_url");
  }

  lemma TextEntryStatus(f: FormFields, tagsJson: string, stackJson: string)
    ensures Get(TextEntries(f, tagsJson, stackJson), "status") == Some(Text(f.status))
  {
    var fd := TextEntries(f, tagsJson, stackJson);
    forall i | 0 <= i < 7 ensures fd[i].name != "status" {
      if i == 0 {} else if i == 1 {} else if i == 2 {} else if i == 3 {} else if i == 4 {} else if i == 5 {} else {}
    }
    GetFirstOf(fd, 7, "status");
  }

  /** No text entry is named `cover` or `mockups`. */
  lemma TextEntriesHaveNoFiles(f: FormFields, tagsJson: string, stackJson: string)
    ensures Get(TextEntries(f, tagsJson, stackJson), "cover").None?
    ensures GetAll(TextEntries(f, tagsJson, stackJson), "mockups") == []
  {
    var fd := TextEntries(f, tagsJson, stackJson);
    forall i | 0 <= i < 10 ensures fd[i].name != "cover" && fd[i].name != "mockups" {
      if i == 0 {} else if i == 1 {} else if i == 2 {} else if i == 3 {} else if i == 4 {} else if i == 5 {} else if i == 6 {} else if i == 7 {} else if i == 8 {} else {}
    }
    GetSkip(fd, 10, "cover");
    GetAllNone(fd, "mockups");
  }

  /** `Get` skips entries of other names. */
  lemma {:induction false} GetSkip(fd: Form, k: nat, name: string)
    requires k <= |fd|
    requires forall i :: 0 <= i < k ==> fd[i].name != name
    ensures Get(fd, name) == Get(fd[k..], name)
  {
    if k > 0 {
      GetSkip(fd[1..], k - 1, name);
      assert fd[1..][k - 1..] == fd[k..];
    }
  }

  lemma {:induction false} GetAllNone(fd: Form, name: string)
    requires forall i :: 0 <= i < |fd| ==> fd[i].name != name
    ensures GetAll(fd, name) == []
  {
    if fd != [] {
      GetAllNone(fd[1..], name);
    }
  }

  /** `Get` finds the first entry with the name. */
  lemma {:induction false} GetFirstOf(fd: Form, k: int, name: string)
    requires 0 <= k < |fd| && fd[k].name == name
    requires forall i :: 0 <= i < k ==> fd[i].name != name
    ensures Get(fd, name) == Some(fd[k].value)
  {
    if k > 0 {
      GetFirstOf(fd[1..], k - 1, name);
    }
  }

  /** Reading the file entries back by name. */
  lemma FileEntriesReadBack(cover: Option<string>, mockups: seq<string>)
    ensures CoverImage(Get(FileEntries(cover, mockups), "cover")) == cover
    ensures MockupImages(GetAll(FileEntries(cover, mockups), "mockups")) == mockups
  {
    var coverPart: Form := if cover.Some? then [FormEntry("cover", File(cover.value))] else [];
    var tail := MapSeq(mockups, MockupEntry);
    GetAppend(coverPart, tail, "cover");
    GetAllAppend(coverPart, tail, "mockups");
    MockupsReadBack(mockups);
    assert GetAll(coverPart, "mockups") == [];
    assert [] + GetAll(tail, "mockups") == GetAll(tail, "mockups");
    assert coverPart + tail == FileEntries(cover, mockups);
  }

  /** The title, slug and `featured` of a submitted form. */
  lemma SubmittedTexts(f: FormFields, cover: Option<string>, mockups: seq<string>, stringify: seq<string> -> string)
    ensures Get(EncodeForm(f, cover, mockups, stringify), "title") == Some(Text(f.title))
    ensures Get(EncodeForm(f, cover, mockups, stringify), "slug") == Some(Text(f.slug))
    ensures Get(EncodeForm(f, cover, mockups, stringify), "featured") == Some(Text(FeaturedText(f.featured)))
  {
    var tagsJson := stringify(ParseTags(f.tags));
    var stackJson := stringify(f.stack);
    var head := TextEntries(f, tagsJson, stackJson);
    var files := FileEntries(cover, mockups);
    TextEntryTitle(f, tagsJson, stackJson);
    TextEntrySlug(f, tagsJson, stackJson);
    TextEntryFeatured(f, tagsJson, stackJson);
    GetAppend(head, files, "title");
    GetAppend(head, files, "slug");
    GetAppend(head, files, "featured");
  }

  /** The JSON texts of the tags and the stack of a submitted form. */
  lemma SubmittedLists(f: FormFields, cover: Option<string>, mockups: seq<string>, stringify: seq<string> -> string)
    ensures Get(EncodeForm(f, cover, mockups, stringify), "tags") == Some(Text(stringify(ParseTags(f.tags))))
    ensures Get(EncodeForm(f, cover, mockups, stringify), "stack") == Some(Text(stringify(f.stack)))
  {
    var tagsJson := stringify(ParseTags(f.tags));
    var stackJson := stringify(f.stack);
    var head := TextEntries(f, tagsJson, stackJson);
    var files := FileEntries(cover, mockups);
    TextEntryTags(f, tagsJson, stackJson);
    TextEntryStack(f, tagsJson, stackJson);
    GetAppend(head, files, "tags");
    GetAppend(head, files, "stack");
  }

  /** The description and the two URLs of a submitted form. */
  lemma SubmittedOptionalTexts(f: FormFields, cover: Option<string>, mockups: seq<string>, stringify: seq<string> -> string)
    ensures Get(EncodeForm(f, cover, mockups, stringify), "description") == Some(Text(f.description))
    ensures Get(EncodeForm(f, cover, mockups, stringify), "project_url") == Some(Text(f.projectUrl))
    ensures Get(EncodeForm(f, cover, mockups, stringify), "github_url") == Some(Text(f.githubUrl))
  {
    var tagsJson := stringify(ParseTags(f.tags));
    var stackJson := stringify(f.stack);
    var head := TextEntries(f, tagsJson, stackJson);
    var files := FileEntries(cover, mockups);
    TextEntryDescription(f, tagsJson, stackJson);
    TextEntryProjectUrl(f, tagsJson, stackJson);
    TextEntryGithubUrl(f, tagsJson, stackJson);
    GetAppend(head, files, "description");
    GetAppend(head, files, "project_url");
    GetAppend(head, files, "github_url");
  }

  /** The type and status texts of a submitted form. */
  lemma SubmittedChoices(f: FormFields, cover: Option<string>, mockups: seq<string>, stringify: seq<string> -> string)
    ensures Get(EncodeForm(f, cover, mockups, stringify), "type") == Some(Text(f.projectType))
    ensures Get(EncodeForm(f, cover, mockups, stringify), "status") == Some(Text(f.status))
  {
    var tagsJson := stringify(ParseTags(f.tags));
    var stackJson := stringify(f.stack);
    var head := TextEntries(f, tagsJson, stackJson);
    var files := FileEntries(cover, mockups);
    TextEntryType(f, tagsJson, stackJson);
    TextEntryStatus(f, tagsJson, stackJson);
    GetAppend(head, files, "type");
    GetAppend(head, files, "status");
  }

  /** A text field reads back as its trimmed text, or null when that is empty. */
  lemma OptionalTextReadsBack(v: Option<FormValue>, text: string)
    requires v == Some(Text(text))
    ensures OptionalText(v) == if Trim(text) == "" then None else Some(Trim(text))
  {
    OptionalTextValue(v);
  }

  /** The handler stores the trimmed description, or null when the form's description is blank. */
  lemma DescriptionReadsBack(f: FormFields, cover: Option<string>, mockups: seq<string>, stringify: seq<string> -> string)
    ensures OptionalText(Get(EncodeForm(f, cover, mockups, stringify), "description")) ==
      if Trim(f.description) == "" then None else Some(Trim(f.description))
  {
    SubmittedOptionalTexts(f, cover, mockups, stringify);
    OptionalTextReadsBack(Get(EncodeForm(f, cover, mockups, stringify), "description"), f.description);
  }

  /** The same for the project URL. */
  lemma ProjectUrlReadsBack(f: FormFields, cover: Option<string>, mockups: seq<string>, stringify: seq<string> -> string)
    ensures OptionalText(Get(EncodeForm(f, cover, mockups, stringify), "project_url")) ==
      if Trim(f.projectUrl) == "" then None else Some(Trim(f.projectUrl))
  {
    SubmittedOptionalTexts(f, cover, mockups, stringify);
    OptionalTextReadsBack(Get(EncodeForm(f, cover, mockups, stringify), "project_url"), f.projectUrl);
  }

  /** The same for the GitHub URL. */
  lemma GithubUrlReadsBack(f: FormFields, cover: Option<string>, mockups: seq<string>, stringify: seq<string> -> string)
    ensures OptionalText(Get(EncodeForm(f, cover, mockups, stringify), "github_url")) ==
      if Trim(f.githubUrl) == "" then None else Some(Trim(f.githubUrl))
  {
    SubmittedOptionalTexts(f, cover, mockups, stringify);
    OptionalTextReadsBack(Get(EncodeForm(f, cover, mockups, stringify), "github_url"), f.githubUrl);
  }

  /** A type and a status chosen from the form's options are stored as chosen. */
  lemma ChoicesReadBack(f: FormFields, cover: Option<string>, mockups: seq<string>, stringify: seq<string> -> string,
                        t: ProjectType, st: ProjectStatus)
    requires f.projectType == TypeName(t) && f.status == StatusName(st)
    ensures CoerceType(Get(EncodeForm(f, cover, mockups, stringify), "type")) == t
    ensures CoerceStatus(Get(EncodeForm(f, cover, mockups, stringify), "status")) == st
  {
    SubmittedChoices(f, cover, mockups, stringify);
    CoerceTypeRoundTrip(t);
    CoerceStatusRoundTrip(st);
  }

  /** The files of a submitted form. */
  lemma SubmittedFiles(f: FormFields, cover: Option<string>, mockups: seq<string>, stringify: seq<string> -> string)
    ensures CoverImage(Get(EncodeForm(f, cover, mockups, stringify), "cover")) == cover
    ensures MockupImages(GetAll(EncodeForm(f, cover, mockups, stringify), "mockups")) == mockups
  {
    var tagsJson := stringify(ParseTags(f.tags));
    var stackJson := stringify(f.stack);
    var head := TextEntries(f, tagsJson, stackJson);
    var files := FileEntries(cover, mockups);
    TextEntriesHaveNoFiles(f, tagsJson, stackJson);
    FileEntriesReadBack(cover, mockups);
    GetAppend(head, files, "cover");
    GetAllAppend(head, files, "mockups");
    assert [] + GetAll(files, "mockups") == GetAll(files, "mockups");
  }

  /** The featured text the form sends is read back as the same flag. */
  lemma FeaturedReadsBack(v: Option<FormValue>, featured: bool)
    requires v == Some(Text(FeaturedText(featured)))
    ensures ParseFeatured(v) == featured
  {
  }

  /** A non-empty JSON text that parses to an array reads back as the cleaned array. */
  lemma ListReadsBack(v: Option<FormValue>, xs: seq<string>, json: string, parse: string -> JsonParse)
    requires v == Some(Text(json)) && json != "" && parse(json) == ArrayOf(xs)
    ensures SafeJsonArray(v, [], parse) == CleanList(xs)
  {
  }

  /**
   * What the create handler reads back from a submitted form: the title and
   * slug as typed, the same `featured`, the parsed tags, the stack, the cover
   * and the mockup files, given that `parse` undoes `stringify` on the two
   * lists sent.
   */
  lemma SubmissionReadsBack(f: FormFields, cover: Option<string>, mockups: seq<string>,
                            stringify: seq<string> -> string, parse: string -> JsonParse)
    requires stringify(ParseTags(f.tags)) != "" && parse(stringify(ParseTags(f.tags))) == ArrayOf(ParseTags(f.tags))
    requires stringify(f.stack) != "" && parse(stringify(f.stack)) == ArrayOf(f.stack)
    ensures Get(EncodeForm(f, cover, mockups, stringify), "title") == Some(Text(f.title))
    ensures Get(EncodeForm(f, cover, mockups, stringify), "slug") == Some(Text(f.slug))
    ensures ParseFeatured(Get(EncodeForm(f, cover, mockups, stringify), "featured")) == f.featured
    ensures SafeJsonArray(Get(EncodeForm(f, cover, mockups, stringify), "tags"), [], parse) == ParseTags(f.tags)
    ensures SafeJsonArray(Get(EncodeForm(f, cover, mockups, stringify), "stack"), [], parse) == CleanList(f.stack)
    ensures CoverImage(Get(EncodeForm(f, cover, mockups, stringify), "cover")) == cover
    ensures MockupImages(GetAll(EncodeForm(f, cover, mockups, stringify), "mockups")) == mockups
  {
    var fd := EncodeForm(f, cover, mockups, stringify);
    SubmittedTexts(f, cover, mockups, stringify);
    SubmittedLists(f, cover, mockups, stringify);
    SubmittedFiles(f, cover, mockups, stringify);
    FeaturedReadsBack(Get(fd, "featured"), f.featured);
    ListReadsBack(Get(fd, "tags"), ParseTags(f.tags), stringify(ParseTags(f.tags)), parse);
    ListReadsBack(Get(fd, "stack"), f.stack, stringify(f.stack), parse);
    ParseTagsClean(f.tags);
  }
}

/**
 * The admin projects route (app/api/admin/projects/route.ts): the session
 * check, the JSON-array form fields, the coercion of `type` and `status`,
 * and the GET and POST handlers with their order of checks. The store is
 * the set of slugs it already holds (for POST) and the rows a query returns
 * (for GET).
 */
module ProjectsRoute {
  import opened Wrappers
  import opened JsText
  import opened Seqs
  import opened Records
  import opened Http
  import opened Cookies
  import opened Slugs

  const SessionCookieName: string := "admin_session"

  /** `checkAuth()`: an `admin_session` cookie is present; its value is never looked at. */
  predicate CheckAuth(jar: map<string, Cookie>) {
    SessionCookieName in jar
  }

  /** `!!cookieStore.get('admin_session')`: authenticated exactly when the store's lookup finds a cookie. */
  lemma CheckAuthReadsStore(store: CookieStore)
    ensures CheckAuth(store.entries) <==> store.Get(SessionCookieName).Some?
  {
  }

  /** Any cookie under the session name authenticates, the empty value included. */
  lemma AnySessionValueAuthenticates(jar: map<string, Cookie>, c: Cookie)
    ensures CheckAuth(jar[SessionCookieName := c])
    ensures CheckAuth(jar[SessionCookieName := c.(value := "")])
  {
  }

  /** A multipart form value: a text field, or an attached file given by its base64 encoding. */
  datatype FormValue = Text(text: string) | File(b64: string)

  datatype FormEntry = FormEntry(name: string, value: FormValue)

  /** A `FormData`: its entries in order; a name may repeat. */
  type Form = seq<FormEntry>

  /** `fd.get(name)`: the value of the first entry with that name. */
  function Get(fd: Form, name: string): (r: Option<FormValue>)
    ensures r.None? <==> forall i :: 0 <= i < |fd| ==> fd[i].name != name
    ensures r.Some? ==> FormEntry(name, r.value) in fd
  {
    if fd == [] then None
    else if fd[0].name == name then Some(fd[0].value)
    else Get(fd[1..], name)
  }

  /** `fd.getAll(name)`: the values of every entry with that name, in order. */
  function GetAll(fd: Form, name: string): (r: seq<FormValue>)
    ensures forall v :: v in r <==> FormEntry(name, v) in fd
  {
    if fd == [] then []
    else
      var rest := GetAll(fd[1..], name);
      assert fd == [fd[0]] + fd[1..];
      if fd[0].name == name then [fd[0].value] + rest else rest
  }

  /** `String(v)`: a file renders as `[object File]`. */
  function StringOf(v: FormValue): string {
    match v
    case Text(s) => s
    case File(_) => "[object File]"
  }

  /** `String(fd.get(name) || dflt)`: a missing or empty field reads as the default. */
  function TextOr(v: Option<FormValue>, dflt: string): (s: string)
    ensures v.None? || v == Some(Text("")) ==> s == dflt
    ensures v.Some? && v != Some(Text("")) ==> s == StringOf(v.value)
  {
    match v
    case None => dflt
    case Some(x) => if x == Text("") then dflt else StringOf(x)
  }

  /** `String(fd.get(name) || '').trim() || null`. */
  function OptionalText(v: Option<FormValue>): (r: Option<string>)
    ensures r.None? <==> Trim(TextOr(v, "")) == ""
  {
    var t := Trim(TextOr(v, ""));
    if t == "" then None else Some(t)
  }

  /** A kept optional text is the trimmed field text, so it is non-empty and trimmed. */
  lemma OptionalTextValue(v: Option<FormValue>)
    ensures OptionalText(v).Some? ==> OptionalText(v).value == Trim(TextOr(v, ""))
    ensures OptionalText(v).Some? ==> OptionalText(v).value != "" && IsTrimmed(OptionalText(v).value)
  {
  }

  /** What `JSON.parse` makes of a text: an error, a value that is not an array, or an
      array given by the `String(...)` rendering of each element. */
  datatype JsonParse = NotJson | NotArray | ArrayOf(rendered: seq<string>)

  /**
   * `safeJsonArray(value, fallback)`: the fallback for a missing or empty
   * field, for a text that does not parse and for a parsed value that is not
   * an array; otherwise the cleaned elements of the array.
   */
  function SafeJsonArray(value: Option<FormValue>, fallback: seq<string>, parse: string -> JsonParse): (r: seq<string>)
    ensures value.None? || value == Some(Text("")) ==> r == fallback
    ensures value.Some? && value != Some(Text("")) && !parse(StringOf(value.value)).ArrayOf? ==> r == fallback
    ensures value.Some? && value != Some(Text("")) && parse(StringOf(value.value)).ArrayOf? ==>
      r == CleanList(parse(StringOf(value.value)).rendered)
  {
    match value
    case None => fallback
    case Some(v) =>
      if v == Text("") then fallback
      else
        match parse(StringOf(v))
        case ArrayOf(items) => CleanList(items)
        case _ => fallback
  }

  /** `type`: the trimmed field if it names one of the six types, else `web` (also when absent). */
  function CoerceType(v: Option<FormValue>): (t: ProjectType)
    ensures Trim(TextOr(v, "web")) in AllowedTypes ==> TypeName(t) == Trim(TextOr(v, "web"))
    ensures Trim(TextOr(v, "web")) !in AllowedTypes ==> t == Web
  {
    match ParseType(Trim(TextOr(v, "web")))
    case Some(t) => t
    case None => Web
  }

  /** `status`: the trimmed field if it is `draft` or `published`, else `published`. */
  function CoerceStatus(v: Option<FormValue>): (st: ProjectStatus)
    ensures Trim(TextOr(v, "published")) in AllowedStatus ==> StatusName(st) == Trim(TextOr(v, "published"))
    ensures Trim(TextOr(v, "published")) !in AllowedStatus ==> st == Published
  {
    match ParseStatus(Trim(TextOr(v, "published")))
    case Some(st) => st
    case None => Published
  }

  /** Submitting a type's own text stores exactly that type. */
  lemma CoerceTypeRoundTrip(t: ProjectType)
    ensures CoerceType(Some(Text(TypeName(t)))) == t
  {
    var s := TypeName(t);
    assert s != [] && IsTrimmed(s) by {
      match t
      case Web => case Mobile => case Desktop => case Backend => case UiUx => case Other =>
    }
    assert TextOr(Some(Text(s)), "web") == s;
    assert Trim(s) == s;
    TypeNameRoundTrip(t);
  }

  /** Submitting a status's own text stores exactly that status. */
  lemma CoerceStatusRoundTrip(st: ProjectStatus)
    ensures CoerceStatus(Some(Text(StatusName(st)))) == st
  {
    var s := StatusName(st);
    assert s != [] && IsTrimmed(s) by {
      match st
      case Draft => case Published =>
    }
    assert TextOr(Some(Text(s)), "published") == s;
    assert Trim(s) == s;
    StatusNameRoundTrip(st);
  }

  /** `String(fd.get('featured') || 'false') === 'true'`. */
  function ParseFeatured(v: Option<FormValue>): (b: bool)
    ensures b <==> v == Some(Text("true"))
  {
    TextOr(v, "false") == "true"
  }

  /** The attached cover, if the `cover` field holds a file. */
  function CoverImage(v: Option<FormValue>): (r: Option<string>)
    ensures r.Some? <==> v.Some? && v.value.File?
    ensures v.Some? && v.value.File? ==> r == Some(v.value.b64)
  {
    match v
    case Some(File(b)) => Some(b)
    case _ => None
  }

  predicate IsFile(v: FormValue) {
    v.File?
  }

  /** The base64 encoding of a file value (`''` for a text, which is never asked for). */
  function Encoding(v: FormValue): string {
    if v.File? then v.b64 else ""
  }

  /**
   * The encodings of the files among the `mockups` values, in order; `[]`
   * when there are none: `.filter(x instanceof File)` then `.map(fileToB64)`.
   */
  function MockupImages(vs: seq<FormValue>): (r: seq<string>)
    ensures |r| <= |vs|
    ensures (forall i :: 0 <= i < |vs| ==> !vs[i].File?) ==> r == []
  {
    if vs == [] then []
    else (match vs[0] case File(b) => [b] case Text(_) => []) + MockupImages(vs[1..])
  }

  /** `MockupImages` is the encodings of `vs` filtered to its files, in order. */
  lemma {:induction false} MockupImagesFilters(vs: seq<FormValue>)
    ensures MockupImages(vs) == MapSeq(Filter(vs, IsFile), Encoding)
  {
    if vs != [] {
      MockupImagesFilters(vs[1..]);
      var rest := Filter(vs[1..], IsFile);
      if IsFile(vs[0]) {
        assert Filter(vs, IsFile) == [vs[0]] + rest;
        MapAppend([vs[0]], rest, Encoding);
        assert MapSeq([vs[0]], Encoding) == [vs[0].b64];
      } else {
        assert Filter(vs, IsFile) == rest;
      }
    }
  }

  /** `String(fd.get('title') || '').trim()`: a missing title reads as `''`, a text one as its trimmed text. */
  function FormTitle(fd: Form): (t: string)
    ensures IsTrimmed(t)
    ensures Get(fd, "title").None? ==> t == ""
    ensures Get(fd, "title").Some? && Get(fd, "title").value.Text? ==> t == Trim(Get(fd, "title").value.text)
  {
    Trim(TextOr(Get(fd, "title"), ""))
  }

  /** `String(fd.get('slug') || '').trim()`: a missing slug reads as `''`, a text one as its trimmed text. */
  function RequestedSlug(fd: Form): (t: string)
    ensures IsTrimmed(t)
    ensures Get(fd, "slug").None? ==> t == ""
    ensures Get(fd, "slug").Some? && Get(fd, "slug").value.Text? ==> t == Trim(Get(fd, "slug").value.text)
  {
    Trim(TextOr(Get(fd, "slug"), ""))
  }

  /**
   * `slugify(requestedSlug || title)`: always a slug; a non-empty requested
   * slug is slugified (so one already slug-shaped is kept as it is), and a
   * blank one gives way to the title's slug.
   */
  function BaseSlug(fd: Form, title: string): (r: string)
    ensures IsSlug(r)
    ensures RequestedSlug(fd) != "" ==> r == Slugify(RequestedSlug(fd))
    ensures RequestedSlug(fd) != "" && IsSlug(RequestedSlug(fd)) ==> r == RequestedSlug(fd)
    ensures RequestedSlug(fd) == "" ==> r == Slugify(title)
  {
    var requested := RequestedSlug(fd);
    var r := Slugify(if requested != "" then requested else title);
    assert requested != "" && IsSlug(requested) ==> r == requested by {
      if requested != "" && IsSlug(requested) {
        SlugifyFixesSlugs(requested);
      }
    }
    r
  }

  /** The row the handler inserts (route.ts lines 97 to 115), given the title and the allocated slug. */
  function NewRow(fd: Form, title: string, slug: string, parse: string -> JsonParse): (row: NewProject)
    ensures row.title == title && row.slug == slug
  {
    NewProject(
      title := title,
      slug := slug,
      description := OptionalText(Get(fd, "description")),
      projectType := CoerceType(Get(fd, "type")),
      tags := SafeJsonArray(Get(fd, "tags"), [], parse),
      stack := SafeJsonArray(Get(fd, "stack"), [], parse),
      coverImageB64 := CoverImage(Get(fd, "cover")),
      mockupsB64 := MockupImages(GetAll(fd, "mockups")),
      projectUrl := OptionalText(Get(fd, "project_url")),
      githubUrl := OptionalText(Get(fd, "github_url")),
      featured := ParseFeatured(Get(fd, "featured")),
      status := CoerceStatus(Get(fd, "status")))
  }

  /** The type column is the coerced `type` field. */
  lemma NewRowType(fd: Form, title: string, slug: string, parse: string -> JsonParse)
    ensures NewRow(fd, title, slug, parse).projectType == CoerceType(Get(fd, "type"))
  {
  }

  /** The status column is the coerced `status` field. */
  lemma NewRowStatus(fd: Form, title: string, slug: string, parse: string -> JsonParse)
    ensures NewRow(fd, title, slug, parse).status == CoerceStatus(Get(fd, "status"))
  {
  }

  /** The tags column is the `tags` field read as a JSON array, `[]` when it is not one. */
  lemma NewRowTags(fd: Form, title: string, slug: string, parse: string -> JsonParse)
    ensures NewRow(fd, title, slug, parse).tags == SafeJsonArray(Get(fd, "tags"), [], parse)
  {
  }

  /** The stack column is the `stack` field read as a JSON array, `[]` when it is not one. */
  lemma NewRowStack(fd: Form, title: string, slug: string, parse: string -> JsonParse)
    ensures NewRow(fd, title, slug, parse).stack == SafeJsonArray(Get(fd, "stack"), [], parse)
  {
  }

  /** The description column is null exactly when the field is blank. */
  lemma NewRowDescription(fd: Form, title: string, slug: string, parse: string -> JsonParse)
    ensures NewRow(fd, title, slug, parse).description.None? <==> Trim(TextOr(Get(fd, "description"), "")) == ""
  {
    RowField(NewRow(fd, title, slug, parse).description, Get(fd, "description"));
  }

  /** The project URL column is null exactly when the field is blank. */
  lemma NewRowProjectUrl(fd: Form, title: string, slug: string, parse: string -> JsonParse)
    ensures NewRow(fd, title, slug, parse).projectUrl.None? <==> Trim(TextOr(Get(fd, "project_url"), "")) == ""
  {
    RowField(NewRow(fd, title, slug, parse).projectUrl, Get(fd, "project_url"));
  }

  /** The GitHub URL column is null exactly when the field is blank. */
  lemma NewRowGithubUrl(fd: Form, title: string, slug: string, parse: string -> JsonParse)
    ensures NewRow(fd, title, slug, parse).githubUrl.None? <==> Trim(TextOr(Get(fd, "github_url"), "")) == ""
  {
    RowField(NewRow(fd, title, slug, parse).githubUrl, Get(fd, "github_url"));
  }

  /** `featured` is set only by the text `true`. */
  lemma NewRowFeatured(fd: Form, title: string, slug: string, parse: string -> JsonParse)
    ensures NewRow(fd, title, slug, parse).featured <==> Get(fd, "featured") == Some(Text("true"))
  {
    assert NewRow(fd, title, slug, parse).featured == ParseFeatured(Get(fd, "featured"));
  }

  /** A column filled by `OptionalText` is null exactly when the field is blank. */
  lemma RowField(column: Option<string>, v: Option<FormValue>)
    requires column == OptionalText(v)
    ensures column.None? <==> Trim(TextOr(v, "")) == ""
  {
  }

  /** Only attached files become images: a text `cover` is dropped, and so are text `mockups` values. */
  lemma NewRowImages(fd: Form, title: string, slug: string, parse: string -> JsonParse)
    ensures NewRow(fd, title, slug, parse).coverImageB64.Some? <==> Get(fd, "cover").Some? && Get(fd, "cover").value.File?
    ensures NewRow(fd, title, slug, parse).coverImageB64 == CoverImage(Get(fd, "cover"))
    ensures NewRow(fd, title, slug, parse).mockupsB64 == MapSeq(Filter(GetAll(fd, "mockups"), IsFile), Encoding)
    ensures (forall v :: FormEntry("mockups", v) in fd ==> !v.File?) ==> NewRow(fd, title, slug, parse).mockupsB64 == []
  {
    var vs := GetAll(fd, "mockups");
    MockupImagesFilters(vs);
    assert (forall v :: FormEntry("mockups", v) in fd ==> !v.File?) ==> forall i :: 0 <= i < |vs| ==> !vs[i].File? by {
      if forall v :: FormEntry("mockups", v) in fd ==> !v.File? {
        forall i | 0 <= i < |vs| ensures !vs[i].File? {
          assert vs[i] in vs;
        }
      }
    }
  }

  /** The result of one POST: the response, how many slug lookups hit the store, and the row inserted. */
  datatype CreateOutcome = CreateOutcome(response: Response, slugLookups: nat, inserted: Option<NewProject>)

  const Unauthorized: Response := Response(401, ErrorBody("Unauthorized"))
  const TitleRequired: Response := Response(400, ErrorBody("Title is required"))
  const CreateFailed: Response := Response(500, ErrorBody("Failed to create project"))

  /**
   * `POST /api/admin/projects`. `form` is `None` when the body is not a
   * readable form, `taken` holds the slugs already stored, `parse` is
   * `JSON.parse` and `insertFails` says whether the store refuses the insert.
   */
  function Post(jar: map<string, Cookie>, form: Option<Form>, taken: set<string>,
                parse: string -> JsonParse, insertFails: bool): (out: CreateOutcome)
    ensures !CheckAuth(jar) ==> out == CreateOutcome(Unauthorized, 0, None)
    ensures CheckAuth(jar) && form.None? ==> out == CreateOutcome(CreateFailed, 0, None)
    ensures CheckAuth(jar) && form.Some? && FormTitle(form.value) == "" ==>
      out == CreateOutcome(TitleRequired, 0, None)
    ensures out.inserted.Some? <==>
      CheckAuth(jar) && form.Some? && FormTitle(form.value) != "" && !insertFails
    ensures out.inserted.Some? ==>
      && out.response == Response(201, CreatedBody(out.inserted.value))
      && out.inserted.value.slug !in taken
      && IsSlug(out.inserted.value.slug)
      && out.inserted.value.title == FormTitle(form.value)
    ensures out.inserted.Some? ==>
      out.inserted.value == NewRow(form.value, FormTitle(form.value),
                                   UniqueSlug(BaseSlug(form.value, FormTitle(form.value)), taken), parse)
    ensures out.inserted.None? && out.slugLookups > 0 ==> out.response == CreateFailed
    ensures CheckAuth(jar) && form.Some? && FormTitle(form.value) != "" ==>
      out.slugLookups == LookupCount(BaseSlug(form.value, FormTitle(form.value)), taken)
    ensures CheckAuth(jar) && form.Some? && FormTitle(form.value) != "" && insertFails ==>
      out.response == CreateFailed
  {
    if !CheckAuth(jar) then CreateOutcome(Unauthorized, 0, None)
    else if form.None? then CreateOutcome(CreateFailed, 0, None)
    else
      var fd := form.value;
      var title := FormTitle(fd);
      if title == "" then CreateOutcome(TitleRequired, 0, None)
      else
        var base := BaseSlug(fd, title);
        var slug := UniqueSlug(base, taken);
        UniqueSlugIsSlug(base, taken);
        var row := NewRow(fd, title, slug, parse);
        if insertFails then CreateOutcome(CreateFailed, LookupCount(base, taken), None)
        else CreateOutcome(Response(201, CreatedBody(row)), LookupCount(base, taken), Some(row))
  }

  /** A requested slug that is slug-shaped and free is the slug the row is stored under. */
  lemma PostKeepsFreeRequestedSlug(jar: map<string, Cookie>, fd: Form, taken: set<string>,
                                   parse: string -> JsonParse, insertFails: bool)
    requires Post(jar, Some(fd), taken, parse, insertFails).inserted.Some?
    requires RequestedSlug(fd) != "" && IsSlug(RequestedSlug(fd)) && RequestedSlug(fd) !in taken
    ensures Post(jar, Some(fd), taken, parse, insertFails).inserted.value.slug == RequestedSlug(fd)
  {
    var base := BaseSlug(fd, FormTitle(fd));
    assert base == RequestedSlug(fd);
    assert UniqueSlug(base, taken) == base;
  }

  /** With a blank slug field the row is stored under the first free slug of the title. */
  lemma PostSlugFromTitle(jar: map<string, Cookie>, fd: Form, taken: set<string>,
                          parse: string -> JsonParse, insertFails: bool)
    requires Post(jar, Some(fd), taken, parse, insertFails).inserted.Some?
    requires RequestedSlug(fd) == ""
    ensures Post(jar, Some(fd), taken, parse, insertFails).inserted.value.slug
         == UniqueSlug(Slugify(FormTitle(fd)), taken)
  {
  }

  /** The columns the list query selects: everything but `content` and `mockups_b64`. */
  function ListColumns(p: Project): (q: Project)
    ensures q.content.None? && q.mockupsB64.None?
    ensures q.(content := p.content, mockupsB64 := p.mockupsB64) == p
  {
    p.(content := None, mockupsB64 := None)
  }

  /**
   * `GET /api/admin/projects`: 401 without a session, 500 when the query
   * fails (`rows` is `None`), otherwise the rows the store returned, in its
   * order, without their mockups.
   */
  function ListProjects(jar: map<string, Cookie>, rows: Option<seq<Project>>): (r: Response)
    ensures !CheckAuth(jar) ==> r == Unauthorized
    ensures CheckAuth(jar) && rows.None? ==> r == Response(500, ErrorBody("Failed to fetch projects"))
    ensures CheckAuth(jar) && rows.Some? ==>
      && r.status == 200 && r.body.ListBody?
      && |r.body.projects| == |rows.value|
      && forall i :: 0 <= i < |rows.value| ==>
           r.body.projects[i] == ListColumns(rows.value[i])
  {
    if !CheckAuth(jar) then Unauthorized
    else if rows.None? then Response(500, ErrorBody("Failed to fetch projects"))
    else Response(200, ListBody(MapSeq(rows.value, ListColumns)))
  }
}

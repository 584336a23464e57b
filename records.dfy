/**
 * The project record and its enumerations (lib/supabase.ts), and the strongly
 * typed row the create handler inserts.
 */
module Records {
  import opened Wrappers

  datatype ProjectType = Web | Mobile | Desktop | Backend | UiUx | Other
  datatype ProjectStatus = Draft | Published

  /** The stored text of each type, in the order of `ALLOWED_TYPES`. */
  const AllowedTypes: seq<string> := ["web", "mobile", "desktop", "backend", "uiux", "other"]
  /** The stored text of each status, in the order of `ALLOWED_STATUS`. */
  const AllowedStatus: seq<string> := ["draft", "published"]

  function TypeName(t: ProjectType): (s: string)
    ensures s in AllowedTypes
  {
    match t
    case Web => "web"
    case Mobile => "mobile"
    case Desktop => "desktop"
    case Backend => "backend"
    case UiUx => "uiux"
    case Other => "other"
  }

  function StatusName(st: ProjectStatus): (s: string)
    ensures s in AllowedStatus
  {
    match st
    case Draft => "draft"
    case Published => "published"
  }

  /** `ALLOWED_TYPES.includes(s)`, giving the type whose text `s` is. */
  function ParseType(s: string): (r: Option<ProjectType>)
    ensures r.Some? <==> s in AllowedTypes
    ensures r.Some? ==> TypeName(r.value) == s
  {
    if s == "web" then Some(Web)
    else if s == "mobile" then Some(Mobile)
    else if s == "desktop" then Some(Desktop)
    else if s == "backend" then Some(Backend)
    else if s == "uiux" then Some(UiUx)
    else if s == "other" then Some(Other)
    else None
  }

  /** `ALLOWED_STATUS.includes(s)`, giving the status whose text `s` is. */
  function ParseStatus(s: string): (r: Option<ProjectStatus>)
    ensures r.Some? <==> s in AllowedStatus
    ensures r.Some? ==> StatusName(r.value) == s
  {
    if s == "draft" then Some(Draft)
    else if s == "published" then Some(Published)
    else None
  }

  /** Every type's stored text reads back as that type. */
  lemma TypeNameRoundTrip(t: ProjectType)
    ensures ParseType(TypeName(t)) == Some(t)
  {
  }

  lemma StatusNameRoundTrip(st: ProjectStatus)
    ensures ParseStatus(StatusName(st)) == Some(st)
  {
  }

  /** A `created_at` text as `new Date(...)` reads it: a time in milliseconds or an invalid date. */
  datatype Timestamp = Parsed(ms: int) | Unparsable

  /**
   * A project row as the admin and public pages receive it. Columns the
   * pages read through `any` are optional here, as they are at run time.
   */
  datatype Project = Project(
    id: string,
    title: Option<string>,
    slug: Option<string>,
    description: Option<string>,
    content: Option<string>,
    projectType: Option<string>,
    tags: Option<seq<string>>,
    stack: Option<seq<string>>,
    coverImageB64: Option<string>,
    mockupsB64: Option<seq<string>>,
    projectUrl: Option<string>,
    githubUrl: Option<string>,
    featured: bool,
    status: Option<string>,
    createdAt: Timestamp,
    updatedAt: Timestamp)

  /** The row the create handler inserts; the store adds `id` and the timestamps. */
  datatype NewProject = NewProject(
    title: string,
    slug: string,
    description: Option<string>,
    projectType: ProjectType,
    tags: seq<string>,
    stack: seq<string>,
    coverImageB64: Option<string>,
    mockupsB64: seq<string>,
    projectUrl: Option<string>,
    githubUrl: Option<string>,
    featured: bool,
    status: ProjectStatus)

  /** `x || ''` on an optional text. */
  function OrEmpty(x: Option<string>): (r: string)
    ensures x.Some? ==> r == x.value
    ensures x.None? ==> r == ""
  {
    if x.Some? then x.value else ""
  }

  /** `x || dflt` on an optional text: the default also replaces an empty text. */
  function OrDefault(x: Option<string>, dflt: string): (r: string)
    ensures x.Some? && x.value != "" ==> r == x.value
    ensures x.None? || x.value == "" ==> r == dflt
  {
    if x.Some? && x.value != "" then x.value else dflt
  }
}

# Portfolio admin and projects grid, modelled in Dafny

This project models the working core of a Next.js portfolio site that stores projects in a Supabase table. The core is:

- **The admin API.**
  - `POST /api/admin/login` checks credentials and issues a session cookie.
  - `GET` and `POST /api/admin/projects` list projects and create them, behind a cookie check.
  - Creating a project slugifies the requested slug or the title and allocates a slug no stored row has. It coerces `type` and `status` to their allowed values, reads the `tags` and `stack` JSON arrays defensively, and keeps only attached files as images.
- **The admin project form.** This includes:
  - its state;
  - the auto-slug rule, which works differently when creating and when editing a project;
  - the stack toggle and the mockup removal;
  - the `FormData` it submits.
- **The admin dashboard's list logic.** It filters by status, searches, sorts four ways, computes the statistics cards, and updates the list after a delete.
- **The public projects grid.** It formats the type label, offers the type and stack facets, and holds the filter state.

The files:

- `wrappers.dfy` and `seqs.dfy` hold the stock datatypes and sequence lemmas.
- `js_text.dfy` models the JavaScript string built-ins the code relies on:
  - `trim` with its exact whitespace set;
  - ASCII `toLowerCase`;
  - `includes`, `split` and `join`;
  - decimal rendering;
  - the default code-point sort order.
- `records.dfy` holds the project record from `lib/supabase.ts`.
- `slugs.dfy` models `slugify` and `ensureUniqueSlug`.
- `projects_route.dfy`, `login_route.dfy` and `cookies.dfy` model the two routes and the cookie store. `http.dfy` holds their responses.
- `project_form.dfy` models the form. `form_submission.dfy` connects what the form sends to what the create handler reads.
- `dashboard.dfy` and `project_grid.dfy` model the two list pages.

The form, the dashboard and the grid each keep their state in a class. Each handler is a method that says what the new state is. The computations behind them (filters, sorts, slug rules, encoding) are functions and lemmas. Two things are imperative, as in the source:

- The dashboard sorts its copied list in place, modelled as an insertion sort over an `array`.
- `ensureUniqueSlug` is an unbounded `while (true)` loop. Its termination follows from the store being finite and the candidates being distinct.

Inputs from outside the code are parameters:

| input | modelled as |
|---|---|
| the store | the set of stored slugs, the rows a query returns, and a flag for a failed insert |
| `JSON.parse` | `parse: string -> JsonParse` |
| `JSON.stringify` | `stringify` |
| `bcrypt.compare` | `verify(password, hash)` |
| `localeCompare` | an integer collation rank |
| `NODE_ENV` | a string |
| uploaded files | their base64 encodings |

`checkAuth` (`app/api/admin/projects/route.ts:17-21`) accepts any `admin_session` cookie that is present, including one whose value is empty. `AnySessionValueAuthenticates` states this.

Mounting the form in edit mode runs the slug effect once. At that moment the slug still equals `initialSlugRef` and is untouched, so the stored slug is replaced by `slugify(title)` whenever that is non-empty. The model keeps this behaviour (`MountedFields`).

## Model

| member | source | states |
|---|---|---|
| Records.TypeName | lib/supabase.ts:8 | each project type has one of the six stored texts |
| Records.ParseType | app/api/admin/projects/route.ts:59 | a text names a type exactly when it is one of `ALLOWED_TYPES`, and then it is that type's text |
| Records.ParseStatus | app/api/admin/projects/route.ts:60 | a text names a status exactly when it is `draft` or `published`, and then it is that status's text |
| Records.TypeNameRoundTrip | app/api/admin/projects/route.ts:59 | every type's stored text reads back as that type |
| Records.StatusNameRoundTrip | app/api/admin/projects/route.ts:60 | every status's stored text reads back as that status |
| Records.StatusName | lib/supabase.ts:9 | each status has one of the two stored texts |
| Records.OrEmpty | components/admin/project-form.tsx:108-110 | `x \|\| ''` on an optional text: the text when present, `''` when absent |
| Records.OrDefault | components/admin/project-form.tsx:113 | `x \|\| dflt`: a present non-empty text is kept, and an absent or empty one gives the default |
| JsText.TrimStart | app/api/admin/projects/route.ts:90 | the result is a suffix of the input; everything dropped is trim whitespace; it does not start with whitespace |
| JsText.TrimEnd | app/api/admin/projects/route.ts:90 | the result is a prefix of the input; everything dropped is trim whitespace; it does not end with whitespace |
| JsText.Trim | app/api/admin/projects/route.ts:90 | the result has no trim whitespace at either end; an already trimmed text is unchanged; the result is empty exactly when the input is all whitespace |
| JsText.TrimIsInfix | app/api/admin/projects/route.ts:90 | the trimmed text is a slice of the input, and every character cut off either end is trim whitespace |
| JsText.Lower | app/admin/dashboard/page.tsx:152 | same length, each character lower-cased |
| JsText.Includes | app/admin/dashboard/page.tsx:170-174 | true exactly when the query occurs at some position of the text |
| JsText.Split | components/admin/project-form.tsx:202 | at least one piece, and no piece contains the separator |
| JsText.SplitJoin | components/admin/project-form.tsx:202 | joining the pieces with the separator gives back the text |
| JsText.Decimal | app/api/admin/projects/route.ts:55 | the rendering of `n` is a non-empty string of digits |
| JsText.DecimalRoundTrip | app/api/admin/projects/route.ts:55 | reading the digits of `n` back gives `n` |
| JsText.DecimalInjective | app/api/admin/projects/route.ts:55 | different numbers render differently |
| JsText.LessTransitive | app/projects/project-grid-client.tsx:76 | the default sort order is transitive |
| JsText.LessTotal | app/projects/project-grid-client.tsx:76 | the default sort order compares any two different strings |
| JsText.LessIrreflexive | app/projects/project-grid-client.tsx:76 | no string is before itself |
| JsText.CleanList | app/api/admin/projects/route.ts:27 | `.map(trim).filter(Boolean)`: every element is non-empty and trimmed |
| JsText.CleanListIdempotent | app/api/admin/projects/route.ts:27 | cleaning a cleaned list changes nothing |
| JsText.CleanListKeepsDuplicates | app/api/admin/projects/route.ts:27 | the cleaned list keeps the trimmed elements in order and each non-empty one as often as it occurred, so nothing is deduplicated |
| Slugs.Slugify | app/api/admin/projects/route.ts:7-15 | the result is always a slug: `[a-z0-9]` runs joined by single hyphens, no hyphen at either end |
| Slugs.SlugifyFixesSlugs | app/api/admin/projects/route.ts:7-15 | a text that is already a slug slugifies to itself |
| Slugs.SlugifyIdempotent | app/api/admin/projects/route.ts:7-15 | slugifying twice equals slugifying once |
| Slugs.SlugifyKeepsLettersAndDigits | app/api/admin/projects/route.ts:7-15 | the slug holds exactly the ASCII letters and digits of the lower-cased input, in order |
| Slugs.SlugifyJoinsWords | app/api/admin/projects/route.ts:7-15 | two slugs typed with one space between them slugify to the two joined by a single hyphen |
| Slugs.CollapseRuns | app/api/admin/projects/route.ts:13 | only slug characters and hyphens remain, never two hyphens in a row, and a trailing hyphen exactly when the input ended outside `[a-z0-9]` |
| Slugs.StripEdgeHyphens | app/api/admin/projects/route.ts:14 | dropping one edge hyphen on each side of a collapsed text gives a slug |
| Slugs.CollapseJoin | app/api/admin/projects/route.ts:13 | the one space between a slug and a slug-shaped tail becomes a single hyphen, and nothing else changes |
| Slugs.CleanBase | app/api/admin/projects/route.ts:40 | an empty base becomes `project`, and any other base is kept |
| Slugs.CandidatesDistinct | app/api/admin/projects/route.ts:54-55 | no two lookups of one search ask for the same slug |
| Slugs.FirstFreeFrom | app/api/admin/projects/route.ts:44-56 | the search stops at the first free candidate, and every candidate before it is taken |
| Slugs.LookupCount | app/api/admin/projects/route.ts:44-56 | the number of lookups: the last one is free and all earlier ones are taken |
| Slugs.UniqueSlug | app/api/admin/projects/route.ts:39-57 | the slug is not taken; it is the cleaned base when that is free; otherwise it is `base-n` for the least free `n >= 2` |
| Slugs.SuffixedSlug | app/api/admin/projects/route.ts:55 | a non-empty slug, a hyphen and a run of digits form a slug |
| Slugs.JoinedSlug | app/api/admin/projects/route.ts:55 | two non-empty slugs joined by a hyphen form a slug |
| Slugs.UniqueSlugIsSlug | app/api/admin/projects/route.ts:94-95 | an allocated slug keeps the slug shape |
| Slugs.EnsureUniqueSlug | app/api/admin/projects/route.ts:39-57 | the loop returns exactly `UniqueSlug(base, taken)`, which is not taken |
| Cookies.CookieStore.constructor | app/api/admin/login/route.ts:35 | the store starts with the request's cookies |
| Cookies.CookieStore.Get | app/api/admin/projects/route.ts:19 | the cookie of that name, if there is one |
| Cookies.CookieStore.Set | app/api/admin/login/route.ts:36-42 | a set replaces the cookie of that name and leaves the others |
| ProjectsRoute.CheckAuthReadsStore | app/api/admin/projects/route.ts:17-21 | `checkAuth` is true exactly when the cookie store's `get('admin_session')` finds a cookie |
| ProjectsRoute.AnySessionValueAuthenticates | app/api/admin/projects/route.ts:17-21 | any `admin_session` cookie authenticates, the empty value included |
| ProjectsRoute.Get | app/api/admin/projects/route.ts:90 | `fd.get(name)` is absent exactly when no entry has the name; otherwise it is an entry's value |
| ProjectsRoute.GetAll | app/api/admin/projects/route.ts:114 | `fd.getAll(name)` holds exactly the values of the entries with that name |
| ProjectsRoute.TextOr | app/api/admin/projects/route.ts:90 | `String(fd.get(name) \|\| dflt)`: an absent or empty field gives the default, and any other field gives its string form |
| ProjectsRoute.OptionalText | app/api/admin/projects/route.ts:103-105 | null exactly when the trimmed field is empty |
| ProjectsRoute.OptionalTextValue | app/api/admin/projects/route.ts:103-105 | a kept text is exactly the trimmed field text, hence non-empty and trimmed |
| ProjectsRoute.FormTitle | app/api/admin/projects/route.ts:90 | the title is trimmed; a missing field gives `''` and a text field its trimmed text |
| ProjectsRoute.RequestedSlug | app/api/admin/projects/route.ts:93 | the requested slug is trimmed; a missing field gives `''` and a text field its trimmed text |
| ProjectsRoute.SafeJsonArray | app/api/admin/projects/route.ts:23-32 | the fallback for a missing or empty field, unparsable JSON or a non-array; otherwise the trimmed non-empty elements |
| ProjectsRoute.CoerceType | app/api/admin/projects/route.ts:97-98 | the trimmed field (default `web`) when it is an allowed type, else `web` |
| ProjectsRoute.CoerceStatus | app/api/admin/projects/route.ts:100-101 | the trimmed field (default `published`) when it is an allowed status, else `published` |
| ProjectsRoute.CoerceTypeRoundTrip | app/api/admin/projects/route.ts:97-98 | submitting a type's own text stores that type |
| ProjectsRoute.CoerceStatusRoundTrip | app/api/admin/projects/route.ts:100-101 | submitting a status's own text stores that status |
| ProjectsRoute.BaseSlug | app/api/admin/projects/route.ts:93-94 | always a slug; a non-empty requested slug is slugified, so one that is already a slug is used as typed; a blank slug field gives the slug of the title |
| ProjectsRoute.ParseFeatured | app/api/admin/projects/route.ts:106 | featured exactly when the field is the text `true` |
| ProjectsRoute.CoverImage | app/api/admin/projects/route.ts:111-112 | a cover is stored exactly when the `cover` field is a file, and it is that file's encoding |
| ProjectsRoute.MockupImages | app/api/admin/projects/route.ts:114-115 | only files become mockups, so without files the list is empty |
| ProjectsRoute.MockupImagesFilters | app/api/admin/projects/route.ts:114-115 | the mockups are the encodings of exactly the `mockups` entries that are files, in their order |
| ProjectsRoute.NewRow | app/api/admin/projects/route.ts:117-133 | the inserted row has the handler's title and allocated slug |
| ProjectsRoute.NewRowDescription | app/api/admin/projects/route.ts:103 | the description column is null exactly when the field is blank |
| ProjectsRoute.NewRowProjectUrl | app/api/admin/projects/route.ts:104 | the project URL column is null exactly when the field is blank |
| ProjectsRoute.NewRowGithubUrl | app/api/admin/projects/route.ts:105 | the GitHub URL column is null exactly when the field is blank |
| ProjectsRoute.NewRowType | app/api/admin/projects/route.ts:97-98 | the type column is the coerced `type` field |
| ProjectsRoute.NewRowStatus | app/api/admin/projects/route.ts:100-101 | the status column is the coerced `status` field |
| ProjectsRoute.NewRowTags | app/api/admin/projects/route.ts:108 | the tags column is the `tags` field read as a JSON array, `[]` when it is not one |
| ProjectsRoute.NewRowStack | app/api/admin/projects/route.ts:109 | the stack column is the `stack` field read as a JSON array, `[]` when it is not one |
| ProjectsRoute.NewRowFeatured | app/api/admin/projects/route.ts:106 | the row is featured exactly when the field is the text `true` |
| ProjectsRoute.NewRowImages | app/api/admin/projects/route.ts:111-115 | the cover column is the cover read from the `cover` field; the mockups column is the encodings of the files among the `mockups` entries, in order; no mockups when none is a file |
| ProjectsRoute.Post | app/api/admin/projects/route.ts:83-144 | three error responses: 401 without a session, 500 for an unreadable body, and 400 for a blank title. The last two come before any store lookup and nothing is inserted. Otherwise the handler makes exactly the lookups the slug search needs. A row is inserted exactly when authenticated, readable, titled and the insert succeeds. Its response is 201 with that row. The row is the one built from the form with the trimmed title and the unique slug of the base slug; that slug is not yet stored. A failed insert answers 500 `Failed to create project`. |
| ProjectsRoute.PostKeepsFreeRequestedSlug | app/api/admin/projects/route.ts:93-95 | a requested slug that is slug-shaped and not stored is inserted exactly as typed (after trimming) |
| ProjectsRoute.PostSlugFromTitle | app/api/admin/projects/route.ts:93-95 | with a blank slug field the inserted slug is the unique slug of the title's slug |
| ProjectsRoute.ListColumns | app/api/admin/projects/route.ts:70-72 | the listed entry is the row without `content` and the mockups, with every other column unchanged |
| ProjectsRoute.ListProjects | app/api/admin/projects/route.ts:62-81 | 401 without a session; 500 `Failed to fetch projects` on a failed query; otherwise 200 with one entry per row, in order, each the listed columns of the row at the same index |
| LoginRoute.SessionCookie | app/api/admin/login/route.ts:36-42 | the cookie carries the admin id, is httpOnly, lax, path `/`, lasts 604800 seconds, and is secure exactly in production |
| LoginRoute.Decide | app/api/admin/login/route.ts:11-32 | accepted exactly when the lookup found an admin and the password verifies against its hash; the cookie then is the session cookie for that admin |
| LoginRoute.Login | app/api/admin/login/route.ts:6-52 | an unreadable body gives 500, and a rejection gives 401 `Invalid credentials`; in both cases no cookie is set. Success gives 200 and sets only `admin_session`, after which the projects route accepts the request. |
| LoginRoute.AcceptedAuthenticates | app/api/admin/login/route.ts:36-42 | the cookie an accepted login sets passes the projects route's `checkAuth` |
| ProjectForm.B64ToDataUrl | components/admin/project-form.tsx:79-82 | `''` exactly for a missing or empty encoding; otherwise the data-URL prefix followed by the encoding |
| ProjectForm.Toggle | components/admin/project-form.tsx:145-150 | after a toggle the key is present exactly when it was absent; an absent key is appended |
| ProjectForm.ToggleTwiceRestores | components/admin/project-form.tsx:145-150 | toggling an absent key twice restores the stack |
| ProjectForm.ToggleKeepsOthers | components/admin/project-form.tsx:145-150 | the other keys and their order are untouched |
| ProjectForm.LabelFor | components/admin/project-form.tsx:177 | no label exactly when no option has the key; a label found belongs to an option with that key |
| ProjectForm.SelectedStackLabels | components/admin/project-form.tsx:176-179 | one label per key in order; a known key shows its option's label, an unknown key itself |
| ProjectForm.KeepOtherIndicesRemovesOne | components/admin/project-form.tsx:170 | filtering out an index removes exactly that element when it is in range, and nothing otherwise |
| ProjectForm.RemoveAt | components/admin/project-form.tsx:168-174 | exactly the element at `idx` goes and the rest keep their order; an index out of range changes nothing |
| ProjectForm.ParseTags | components/admin/project-form.tsx:198-206 | each submitted tag is non-empty, comma-free and trimmed |
| ProjectForm.CleanListCons | components/admin/project-form.tsx:203-204 | a clean head survives cleaning in front of the cleaned rest |
| ProjectForm.CleanListLeadingSpace | components/admin/project-form.tsx:203 | the space after a `, ` separator does not change the cleaned tags |
| ProjectForm.ParseTagsStep | components/admin/project-form.tsx:202-204 | a clean tag followed by `, ` and more text parses as that tag in front of the rest's tags |
| ProjectForm.TagsRoundTrip | components/admin/project-form.tsx:111 | tags loaded with `join(', ')` are submitted unchanged when each is non-empty, comma-free and trimmed |
| ProjectForm.ParseTagsClean | components/admin/project-form.tsx:198-206 | the server's cleaning of the form's tags changes nothing |
| ProjectForm.InitialFields | components/admin/project-form.tsx:107-118 | the blank form for a new project; tags are joined with `, `; type and status are never empty; the slug is the stored one or `''` |
| ProjectForm.SyncedSlug | components/admin/project-form.tsx:125-138 | the effect keeps the slug or takes the auto-slug. It never acts on an empty auto-slug or a touched slug. In create mode it follows the title; in edit mode only while the slug equals the initial one. |
| ProjectForm.InitialSlug | components/admin/project-form.tsx:122 | the initial slug reference is the initial form slug |
| ProjectForm.MountedFields | components/admin/project-form.tsx:107-138 | after mounting only the slug differs from the initial fields; it is `slugify(title)` whenever that is non-empty, else the stored slug |
| ProjectForm.InitialMockupPreviews | components/admin/project-form.tsx:101-105 | one preview per stored mockup, each the data URL of that mockup's encoding, in order; none without them |
| ProjectForm.InitialCoverPreview | components/admin/project-form.tsx:98-100 | the cover preview is `''` exactly when there is no stored cover, or it is empty; otherwise it is the data URL of the stored cover |
| ProjectForm.FeaturedText | components/admin/project-form.tsx:195 | the featured field is `true` or `false` |
| ProjectForm.TextEntries | components/admin/project-form.tsx:189-207 | the ten text fields the handler sets |
| ProjectForm.FileEntries | components/admin/project-form.tsx:209-210 | a cover entry if a file was chosen, then one entry per mockup file |
| ProjectForm.EncodeForm | components/admin/project-form.tsx:187-210 | ten text entries, plus the cover and one entry per mockup |
| ProjectForm.ProjectFormState.AutoSlug | components/admin/project-form.tsx:123 | the auto-slug is always slug-shaped |
| ProjectForm.ProjectFormState.constructor | components/admin/project-form.tsx:94-138 | the mounted state: untouched slug, the initial slug reference, the fields after the first effect run, no chosen files, the stored previews; in create mode the slug follows the title |
| ProjectForm.ProjectFormState.RunSlugEffect | components/admin/project-form.tsx:125-138 | one effect run replaces the slug by the synced slug and nothing else |
| ProjectForm.ProjectFormState.EditTitle | components/admin/project-form.tsx:288 | sets the title. The slug changes only when the auto-slug changes, then to the synced slug. A touched slug is never changed. In create mode an untouched slug keeps following the title. |
| ProjectForm.ProjectFormState.EditSlug | components/admin/project-form.tsx:300-303 | sets the slug and marks it touched |
| ProjectForm.ProjectFormState.ResetSlugToAuto | components/admin/project-form.tsx:140-143 | untouched again, with the slug of the current title |
| ProjectForm.ProjectFormState.ToggleStack | components/admin/project-form.tsx:145-150 | the stack is toggled, nothing else changes |
| ProjectForm.ProjectFormState.SelectCover | components/admin/project-form.tsx:425 | the chosen cover replaces the previous choice |
| ProjectForm.ProjectFormState.SelectMockups | components/admin/project-form.tsx:458 | the chosen mockups replace the previous selection; the fields, the chosen cover and both previews are untouched |
| ProjectForm.ProjectFormState.RemoveMockupAt | components/admin/project-form.tsx:168-174 | removes the index from the chosen files if there are any, otherwise from the stored previews; the fields, the chosen cover and its preview are untouched |
| ProjectForm.ProjectFormState.Submission | components/admin/project-form.tsx:187-210 | the submitted form is the encoding of the current fields, the chosen cover and the chosen mockups |
| FormSubmission.GetAppend | components/admin/project-form.tsx:187-210 | `get` on a concatenation looks in the second part only when the first lacks the name |
| FormSubmission.GetAllAppend | components/admin/project-form.tsx:210 | `getAll` on a concatenation is the concatenation |
| FormSubmission.MockupsReadBack | components/admin/project-form.tsx:210 | the appended mockup entries read back as the files, in order |
| FormSubmission.TextEntryTitle | components/admin/project-form.tsx:189 | the title entry reads back as the title |
| FormSubmission.TextEntrySlug | components/admin/project-form.tsx:190 | the slug entry reads back as the slug |
| FormSubmission.TextEntryDescription | components/admin/project-form.tsx:191 | the description entry reads back as the description |
| FormSubmission.TextEntryType | components/admin/project-form.tsx:192 | the type entry reads back as the type |
| FormSubmission.TextEntryProjectUrl | components/admin/project-form.tsx:193 | the project URL entry reads back as the project URL |
| FormSubmission.TextEntryGithubUrl | components/admin/project-form.tsx:194 | the GitHub URL entry reads back as the GitHub URL |
| FormSubmission.TextEntryFeatured | components/admin/project-form.tsx:195 | the featured entry reads back as `true`/`false` |
| FormSubmission.TextEntryStatus | components/admin/project-form.tsx:196 | the status entry reads back as the status |
| FormSubmission.TextEntryTags | components/admin/project-form.tsx:198-206 | the tags entry reads back as the tags' JSON |
| FormSubmission.TextEntryStack | components/admin/project-form.tsx:207 | the stack entry reads back as the stack's JSON |
| FormSubmission.TextEntriesHaveNoFiles | components/admin/project-form.tsx:189-207 | the text part has no `cover` and no `mockups` entry |
| FormSubmission.FileEntriesReadBack | components/admin/project-form.tsx:209-210 | the file part reads back as the cover and the mockups |
| FormSubmission.SubmittedTexts | components/admin/project-form.tsx:189-195 | the server reads the form's title, slug and featured text |
| FormSubmission.SubmittedLists | components/admin/project-form.tsx:198-207 | the server reads the JSON of the parsed tags and of the stack |
| FormSubmission.SubmittedOptionalTexts | components/admin/project-form.tsx:191-194 | the server reads the form's description and both URLs |
| FormSubmission.SubmittedChoices | components/admin/project-form.tsx:192-196 | the server reads the form's type and status texts |
| FormSubmission.OptionalTextReadsBack | app/api/admin/projects/route.ts:103-105 | a text field reads back as its trimmed text, or null when that is empty |
| FormSubmission.DescriptionReadsBack | app/api/admin/projects/route.ts:103 | the stored description is the form's trimmed description, or null when it is blank |
| FormSubmission.ProjectUrlReadsBack | app/api/admin/projects/route.ts:104 | the stored project URL is the form's trimmed URL, or null when it is blank |
| FormSubmission.GithubUrlReadsBack | app/api/admin/projects/route.ts:105 | the stored GitHub URL is the form's trimmed URL, or null when it is blank |
| FormSubmission.ChoicesReadBack | app/api/admin/projects/route.ts:97-101 | a type and a status picked from the form's options are stored as picked |
| FormSubmission.SubmittedFiles | app/api/admin/projects/route.ts:111-115 | the server stores exactly the chosen cover and mockups |
| FormSubmission.FeaturedReadsBack | app/api/admin/projects/route.ts:106 | the `true`/`false` text the form sends reads back as the same flag |
| FormSubmission.ListReadsBack | app/api/admin/projects/route.ts:23-32 | a non-empty JSON text that parses to an array reads back as that array cleaned |
| FormSubmission.SubmissionReadsBack | app/api/admin/projects/route.ts:90-115 | the create handler reads back the form's title, slug, featured flag, tags, cleaned stack, cover and mockups, when `parse` undoes `stringify` |
| Dashboard.Filtered | app/admin/dashboard/page.tsx:151-177 | filtering never adds projects |
| Dashboard.FilteredMembers | app/admin/dashboard/page.tsx:157-177 | a project is listed exactly when it passes the status filter (unless `all`) and, for a non-blank query, the search |
| Dashboard.FilteredDefault | app/admin/dashboard/page.tsx:157-162 | with `all` and a blank query nothing is filtered out |
| Dashboard.FilteredKeepsOrder | app/admin/dashboard/page.tsx:154-177 | the filtered list keeps the stored order |
| Dashboard.ToTime | app/admin/dashboard/page.tsx:180-184 | a date that does not parse counts as 0; a parsed one as its time |
| Dashboard.SortOrderMeaning | app/admin/dashboard/page.tsx:186-192 | newest is descending, oldest ascending time; A-Z ascending, Z-A descending collation of the title, with `''` for none |
| Dashboard.Swap | app/admin/dashboard/page.tsx:186 | exchanges two elements, a permutation |
| Dashboard.InsertAt | app/admin/dashboard/page.tsx:186 | one insertion step: the sorted prefix grows by one, a permutation, the rest untouched |
| Dashboard.SortByKey | app/admin/dashboard/page.tsx:186-192 | the array ends sorted by the key and is a permutation of what it was |
| Dashboard.SortedCopy | app/admin/dashboard/page.tsx:186-192 | a copy of the list, sorted by the key and a permutation of it |
| Dashboard.Visible | app/admin/dashboard/page.tsx:151-195 | the visible list is a permutation of the filtered projects, sorted by the chosen order |
| Dashboard.VisibleDefaultIsPermutation | app/admin/dashboard/page.tsx:154 | with `all` and a blank query every project is listed once |
| Dashboard.VisibleMembers | app/admin/dashboard/page.tsx:151-195 | a project is visible exactly when it is stored and passes both filters |
| Dashboard.ComputeStats | app/admin/dashboard/page.tsx:197-202 | total is the number of projects; the cards count the projects whose stored status is exactly `published`, exactly `draft`, and those featured; published plus draft and featured never exceed the total |
| Dashboard.PublishedStatBelowFilter | app/admin/dashboard/page.tsx:197-202 | the published and draft cards never exceed what the matching filter lists |
| Dashboard.CapitalisedStatusMissesCards | app/admin/dashboard/page.tsx:157-202 | a project stored as `Published` is on neither status card, though the `published` filter, which lower-cases, lists it |
| Dashboard.RemoveId | app/admin/dashboard/page.tsx:144 | what remains is exactly the projects with another id |
| Dashboard.RemoveIdKeepsOthers | app/admin/dashboard/page.tsx:144 | every other project keeps its count and order, and none with the id is left |
| Dashboard.DashboardState.constructor | app/admin/dashboard/page.tsx:115 | the list starts empty |
| Dashboard.DashboardState.Loaded | app/admin/dashboard/page.tsx:115 | a successful fetch sets the list to the returned projects, or `[]` |
| Dashboard.DashboardState.HandleDelete | app/admin/dashboard/page.tsx:134-149 | only a confirmed delete whose response is ok removes the id; anything else leaves the list |
| ProjectGrid.LowerHasNoUpper | app/projects/project-grid-client.tsx:59 | a lower-cased text has no upper-case letter |
| ProjectGrid.FormatType | app/projects/project-grid-client.tsx:58-62 | never empty; `Web` for a missing or empty type. `UI/UX` exactly for the type `uiux` in any letter case. Otherwise the lower-cased type with its first character upper-cased. |
| ProjectGrid.TypeSetMembers | app/projects/project-grid-client.tsx:74-75 | the type set holds exactly the types of the projects, with `web` for a missing one |
| ProjectGrid.Elements | app/projects/project-grid-client.tsx:83 | adding a list to a set adds exactly its elements |
| ProjectGrid.StackSetMembers | app/projects/project-grid-client.tsx:80-84 | the stack set holds exactly the entries of the projects' stacks |
| ProjectGrid.Least | app/projects/project-grid-client.tsx:76 | the least string of a set in the default sort order |
| ProjectGrid.SortDistinct | app/projects/project-grid-client.tsx:76 | `Array.from(set).sort()`: strictly ascending, the same elements, each once |
| ProjectGrid.AllTypes | app/projects/project-grid-client.tsx:73-77 | `all` first, then each project type once, ascending |
| ProjectGrid.AllStacks | app/projects/project-grid-client.tsx:79-86 | `all` first, then each stack entry once, ascending |
| ProjectGrid.VisibleProjects | app/projects/project-grid-client.tsx:88-108 | a project is shown exactly when it matches the query and both facets; never more than all |
| ProjectGrid.VisibleKeepsOrder | app/projects/project-grid-client.tsx:88-108 | shown projects keep their order, so `Showing x of y` has x at most y |
| ProjectGrid.DefaultFiltersShowAll | app/projects/project-grid-client.tsx:69-71 | with the default filters every project is shown |
| ProjectGrid.QueryIgnoresType | app/projects/project-grid-client.tsx:100-101 | the search does not look at the type |
| ProjectGrid.GridFilters.constructor | app/projects/project-grid-client.tsx:69-71 | the filters start at their defaults |
| ProjectGrid.GridFilters.SetQuery | app/projects/project-grid-client.tsx:126 | typing sets the query only |
| ProjectGrid.GridFilters.SetTypeFilter | app/projects/project-grid-client.tsx:137 | choosing a type sets the type filter only |
| ProjectGrid.GridFilters.SetStackFilter | app/projects/project-grid-client.tsx:152 | choosing a stack entry sets the stack filter only |
| ProjectGrid.GridFilters.ClearFilters | app/projects/project-grid-client.tsx:110-114 | back to the defaults, under which every project is shown |

## Left out

- Unicode is handled only partly:
  - `normalize('NFKD')` is the identity, which is exact for ASCII input only.
  - `toLowerCase` and `toUpperCase` map ASCII letters only.
  - Sorting compares code points, where JavaScript compares UTF-16 code units. The two agree below U+10000.
- `localeCompare` is an integer rank. This means collation is assumed to be a total preorder. The order of equal-ranked titles is left open, because the model does not state the stability of `Array.prototype.sort`.
- `Dashboard.Visible`: it sorts with an insertion sort. The contract says "sorted, and a permutation of the filtered list", not which permutation the engine's sort would give for equal keys.
- `ProjectGrid.SortDistinct`: it extracts minima repeatedly. Its result is fully determined by its contract, so it is the library sort's result whatever algorithm that uses.
- The store is reduced to values:
  - network calls, timeouts and the Supabase client;
  - `.single()` and `.maybeSingle()` finding several rows;
  - the columns the store fills in itself (`id`, timestamps, `select('*')`).
- `ProjectsRoute.Post`: a failing slug lookup (route.ts line 51) is folded into `insertFails`. Both end in the same 500 `Failed to create project`.
- `fileToB64` (route.ts lines 34-37) is left out. Files are given by their base64 encoding, so reading them is not modelled.
- `bcrypt.compare` is a parameter.
- `request.json()` and `request.formData()` throwing is an absent body. A body whose `email` or `password` has the wrong type is not modelled.
- Rendering, routing and `fetch` are left out. This covers:
  - the JSX;
  - the redirects to the login page;
  - `localStorage`;
  - `router.push` after a submit;
  - the loading and error flags;
  - the `PUT` request the edit form sends.
- The remaining form handlers are left out. The plain field setters (description, type, tags, URLs, status, featured at lines 323-563) each replace one field of `formData`; only the title, slug, stack and file handlers are modelled. The Auto button being disabled on an empty title (line 307) is not modelled either.
- The preview effects (project-form.tsx lines 152-166) are left out. They turn chosen files into object URLs and revoke them; object URLs are browser resources. So `SelectCover` and `SelectMockups` leave the previews alone.
- The `Project` record leaves out the legacy columns `cover_image`, `images` and `tech_stack` (lib/supabase.ts lines 27-30), which none of the modelled code reads.
- The `PUT`/`DELETE` handler in `app/api/admin/projects/[id]/route.ts`, the logout and session-check routes, the public pages and the admin scripts are not part of this model.
- `Dashboard.DashboardState.Loaded`: only the successful fetch is modelled. A failed fetch sets an error message and leaves the list as it was.
- React's asynchronous state updates and batching are left out, and so are races between concurrent requests.

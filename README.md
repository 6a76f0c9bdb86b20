# CERC club site: admin content model

This project models the content-management core of the CERC club web site in Dafny. That core has four parts.

- **Server actions.** They bootstrap the four divisions (`initializeSystem`). They also create, update and delete divisions, projects, members, achievements and tech-stack entries from submitted form data.
- **Admin dialogs.** Their submit handlers guard on an uploaded image, append fields to the browser's `FormData`, await an action, then toast and close.
- **Admin list controls.** These are the pager and the sort selector. Both read and rewrite the query string.
- **Public division tabs.** This part also includes the icon-name lookup.

The database is a `Store` class with one map per table (`cms.dfy`). Each action is a method that changes those maps in place. Each method is proved equal to a pure step function in `CmsSpec` (`cms_spec.dfy`). The properties of a step are stated and proved on those functions:
- what it inserts, rewrites or removes;
- which errors leave the tables untouched;
- that the store's constraints are kept.

The dialog handlers are classes (`forms.dfy`):
- `DivisionForm`, with no image guard;
- `ImageForm`, for the project, member, achievement and tech-stack dialogs, holding the `imageUrl` state.

Each handler is proved equal to a pure submission function, and the properties of a submit are proved on that function.

The string and URL primitives the code leans on are modelled in the base modules:
- `split`, `trim` and `join` in `text.dfy`;
- `FormData`, `URLSearchParams.get` and `URLSearchParams.set` in `web.dfy`;
- `Number()` and `toString` on integers in `numbers.dfy`.

The database schema is not part of this model. The store therefore makes each constraint the actions rely on explicit, as a failure outcome that leaves every table unchanged:
- a required form field is missing: `MissingField`;
- update or delete of an unknown id: `NotFound`;
- a division slug that is already used: `DuplicateSlug`, because slugs are unique, as the `where: { slug }` of the upsert needs;
- a child row naming an unknown division: `UnknownDivision`, the foreign key;
- deleting a division that still owns rows: `HasDependents`, the default `Restrict` of a required relation.

When several of these apply, the model checks them in a fixed order:
1. the form fields, with `id` first on updates;
2. whether the row exists;
3. the slug and foreign-key constraints.

Row ids are handed out by the database, so the create methods take the new id as a parameter.

In a few places the code does less than its own names and the admin screens would lead a reader to expect. The model follows the code in each case:
- `initializeSystem` upserts each seed by slug whenever it runs. It is not limited to an empty store, and it never changes an existing division with a seed slug.
- The server actions do not reject empty required fields. In the dialogs every text input is an HTML `required` input, which the browser enforces before `handleSubmit` runs; the handler itself checks only for an uploaded image, before calling the action. An empty field therefore reaches the database only through a direct call of the action.
- Each action revalidates only its flat admin listing path. It does not revalidate any division-scoped page.
- Tags are not filtered, so `"a,,b"` is stored as `["a", "", "b"]`.

## Model

| member | source | states |
|---|---|---|
| Text.Split | app/actions/cms.ts:91 | `split(",")` yields one piece more than there are separators, and no piece contains the separator |
| Text.TrimStart | app/actions/cms.ts:91 | the result is a suffix of the input, only whitespace was removed, and it does not start with whitespace |
| Text.TrimEnd | app/actions/cms.ts:91 | the result is a prefix of the input, only whitespace was removed, and it does not end with whitespace |
| Text.Join | components/admin/forms.tsx:121 | `join` of one part is that part, of none is empty, and of several starts with the first part and the delimiter |
| Text.Trim | app/actions/cms.ts:91 | the trimmed tag neither starts nor ends with whitespace, and the piece is the tag with only whitespace before and after it |
| Text.TrimFramed | app/actions/cms.ts:91 | trimming a trimmed text wrapped in whitespace gives back exactly that text |
| Text.TrimKeepsOut | app/actions/cms.ts:91 | trimming never introduces a character, so a trimmed piece still has no comma |
| Text.JoinSplit | app/actions/cms.ts:91 | joining the pieces of a split with the separator gives back the submitted text |
| Text.SplitJoin | app/actions/cms.ts:91 | splitting a separator-join of separator-free pieces gives back the pieces |
| Web.Lookup | app/actions/cms.ts:52-55 | `formData.get` / `searchParams.get` give the value of the first entry of that name, and `null` exactly when there is none |
| Web.LookupAppend | components/admin/forms.tsx:81-84 | an appended entry is seen by `get` only when no earlier entry had its name |
| Web.SetParam | components/admin/pagination-control.tsx:25-26 | after `set`, `get` of the name gives the new value, exactly one entry has that name, and the entries of every other name are unchanged |
| Web.SetParamSpec | components/admin/pagination-control.tsx:25-26 | after `set`, `get` of the name gives the new value, exactly one entry has that name, and every entry of every other name is still there in order |
| Web.FormData.Append | components/admin/forms.tsx:81 | the form data gains exactly one last entry, and `get` of that name changes only if it was absent |
| JsNumber.Digits | components/admin/pagination-control.tsx:26 | the decimal text of a non-negative integer is a non-empty run of digits, with a leading zero only in `"0"` itself |
| JsNumber.IntToString | components/admin/pagination-control.tsx:26 | `newPage.toString()` is the canonical decimal text: digits without a leading zero (other than `"0"`), after a `-` for a negative number, with no `+` and no whitespace |
| JsNumber.ToNumber | components/admin/pagination-control.tsx:21 | `Number` of a missing or blank parameter is 0; of digits, `+digits` or `-digits` with surrounding whitespace it is their (signed) value; it is NaN exactly when the trimmed text is none of these |
| JsNumber.ToNumberIgnoresFraming | components/admin/pagination-control.tsx:21 | whitespace around the parameter does not change the number read |
| JsNumber.DigitsRoundTrip | components/admin/pagination-control.tsx:21 | reading back the decimal digits of `n` gives `n` |
| JsNumber.IntToStringRoundTrip | components/admin/pagination-control.tsx:21-26 | `Number(String(n))` is `n` for every integer `n` |
| CmsInput.ParseTags | app/actions/cms.ts:91 | the tags are one per comma-separated piece, each trimmed and comma-free |
| CmsInput.ParseTagsPieces | app/actions/cms.ts:91 | there is one tag per comma-separated piece, and piece `i` is tag `i` with only whitespace before and after it; the pieces rejoined with commas are the submitted text |
| CmsInput.ParseTagsOfCommaJoin | app/actions/cms.ts:91 | a non-empty list of trimmed comma-free tags joined with commas parses back to itself |
| CmsInput.ParseTagsKeepsEmpty | app/actions/cms.ts:91 | an empty piece between commas is kept as an empty tag, not dropped |
| CmsInput.EmptyToNull | app/actions/cms.ts:92-93 | the `null` fallback stores `null` exactly for a missing or empty field and the text verbatim otherwise |
| CmsInput.IconNameOrDefault | app/actions/cms.ts:55 | the stored icon name is never empty; it is the submitted one when that is non-empty, `"FolderKanban"` otherwise |
| CmsInput.Required | app/actions/cms.ts:52-54 | a required field is read when present; a missing one fails with `MissingField` |
| CmsInput.DivisionFieldsFromForm | app/actions/cms.ts:52-55 | succeeds exactly when title, slug and description are present; carries the submitted title, slug and description, and the submitted icon name or `"FolderKanban"` when it is missing or empty |
| CmsInput.ProjectFromForm | app/actions/cms.ts:84-94 | succeeds exactly when the five required fields are present; stores the submitted title, description, division and image, the parsed tags and the null-normalised URLs |
| CmsInput.MemberFromForm | app/actions/cms.ts:125-134 | succeeds exactly when the four required fields are present; stores the submitted name, role, division and image and the null-normalised profile links |
| CmsInput.AchievementFromForm | app/actions/cms.ts:164-174 | succeeds exactly when the seven required fields are present; stores the submitted title, date, description, issuer, winner, division and image |
| CmsInput.TechStackFromForm | app/actions/cms.ts:205-212 | succeeds exactly when name, image and division are present; stores the submitted name, image and division and the null-normalised website URL |
| CmsModel.InsertedFacts | app/actions/cms.ts:57-59 | a create adds exactly one row and leaves every other row as it was |
| CmsModel.ReplacedFacts | app/actions/cms.ts:70-73 | an update keeps the set of ids and every other row |
| CmsModel.RemovedFacts | app/actions/cms.ts:78 | a delete drops exactly one row and keeps every other row |
| CmsModel.OwnedGrow | app/actions/cms.ts:39-45 | adding divisions leaves every child row owned by an existing division |
| CmsSpec.Upsert | app/actions/cms.ts:40-44 | an existing slug leaves the divisions exactly as they were (`update: {}`); otherwise the divisions gain exactly the seed under the new id |
| CmsSpec.UpsertAll | app/actions/cms.ts:39-45 | the loop of upserts introduces no row under an id it was not given |
| CmsSpec.LastIdFresh | app/actions/cms.ts:39-45 | the id of each upsert is still unused when that upsert runs |
| CmsSpec.UpsertKeeps | app/actions/cms.ts:40-44 | an upsert keeps every existing row |
| CmsSpec.UpsertAllKeeps | app/actions/cms.ts:39-45 | the loop keeps every row that existed before it |
| CmsSpec.UpsertAllHas | app/actions/cms.ts:39-45 | after the loop the slug of seed `i` is present, since later upserts never remove it |
| CmsSpec.UpsertAllCovers | app/actions/cms.ts:39-45 | after the loop every seed slug is present |
| CmsSpec.KeepsSlug | app/actions/cms.ts:40-44 | an upsert never removes a slug |
| CmsSpec.UpsertKeepsSlugsUnique | app/actions/cms.ts:40-44 | an upsert never creates a second division with an existing slug |
| CmsSpec.UpsertAllKeepsSlugsUnique | app/actions/cms.ts:39-45 | the whole loop keeps slugs unique |
| CmsSpec.UpsertAllAddsSeeds | app/actions/cms.ts:8-45 | every division the loop adds is one of the seeds |
| CmsSpec.UpsertAllPresent | app/actions/cms.ts:39-45 | upserting seeds whose slugs all exist changes nothing |
| CmsSpec.InitializeSystem | app/actions/cms.ts:7-48 | afterwards all four seed slugs exist, every earlier row is untouched, every new row is one of the four seeds under a given id, other tables are unchanged, `/admin` is revalidated, and consistency is kept |
| CmsSpec.InitializeSystemIdempotent | app/actions/cms.ts:39-45 | running the bootstrap a second time changes nothing |
| CmsSpec.InitializeSystemSlugs | app/actions/cms.ts:8-37 | the bootstrap guarantees the slugs software, network, embedded and multimedia |
| CmsSpec.NewDivision | app/actions/cms.ts:57-59 | a created division has the form's title, slug, description and icon name and no `colorClass` |
| CmsSpec.RewriteDivision | app/actions/cms.ts:70-73 | an update rewrites title, slug, description and icon name, and keeps `colorClass` |
| CmsSpec.CreateDivision | app/actions/cms.ts:51-61 | completes exactly when the fields are present and the slug is new; then inserts one row with no `colorClass` and revalidates `/admin/divisions`; a failure changes nothing |
| CmsSpec.UpdateDivision | app/actions/cms.ts:63-75 | completes exactly when the id exists, the fields are present and no other division has the slug; then rewrites only that row |
| CmsSpec.DeleteDivision | app/actions/cms.ts:77-80 | completes exactly when the division exists and owns no row; then removes only that row |
| CmsSpec.CreateProject | app/actions/cms.ts:83-98 | completes exactly when the fields are present and the division exists; then inserts the parsed row and revalidates `/admin/projects` |
| CmsSpec.UpdateProject | app/actions/cms.ts:100-116 | completes exactly when the id exists, the fields are present and the division exists; then replaces only that row |
| CmsSpec.DeleteProject | app/actions/cms.ts:118-121 | completes exactly when the project exists; then removes only that row |
| CmsSpec.CreateMember | app/actions/cms.ts:124-138 | completes exactly when the fields are present and the division exists; then inserts the row |
| CmsSpec.UpdateMember | app/actions/cms.ts:140-155 | completes exactly when the id exists, the fields are present and the (possibly new) division exists; then replaces only that row |
| CmsSpec.DeleteMember | app/actions/cms.ts:157-160 | completes exactly when the member exists; then removes only that row |
| CmsSpec.CreateAchievement | app/actions/cms.ts:163-178 | completes exactly when the fields are present and the division exists; then inserts the row |
| CmsSpec.UpdateAchievement | app/actions/cms.ts:180-196 | completes exactly when the id exists, the fields are present and the division exists; then replaces only that row |
| CmsSpec.DeleteAchievement | app/actions/cms.ts:198-201 | completes exactly when the achievement exists; then removes only that row |
| CmsSpec.CreateTechStack | app/actions/cms.ts:204-216 | completes exactly when the fields are present and the division exists; then inserts the row and revalidates `/admin/tech-stack` |
| CmsSpec.DeleteTechStack | app/actions/cms.ts:218-221 | completes exactly when the entry exists; then removes only that row |
| CmsSpec.CreateThenDeleteDivision | app/actions/cms.ts:51-80 | deleting a division right after creating it restores the tables |
| CmsSpec.CreateThenDeleteProject | app/actions/cms.ts:83-121 | deleting a project right after creating it restores the tables |
| CmsSpec.CreateThenDeleteMember | app/actions/cms.ts:124-160 | deleting a member right after creating it restores the tables |
| CmsSpec.CreateThenDeleteAchievement | app/actions/cms.ts:163-201 | deleting an achievement right after creating it restores the tables |
| CmsSpec.CreateThenDeleteTechStack | app/actions/cms.ts:204-221 | deleting a tech-stack entry right after creating it restores the tables |
| CmsSpec.UpdateDivisionIdempotent | app/actions/cms.ts:63-75 | submitting the same division edit twice has the effect of submitting it once |
| CmsSpec.UpdateProjectIdempotent | app/actions/cms.ts:100-116 | submitting the same project edit twice has the effect of submitting it once |
| CmsSpec.UpdateMemberIdempotent | app/actions/cms.ts:140-155 | submitting the same member edit twice has the effect of submitting it once |
| CmsSpec.UpdateAchievementIdempotent | app/actions/cms.ts:180-196 | submitting the same achievement edit twice has the effect of submitting it once |
| Cms.Store.constructor | app/actions/cms.ts:7-48 | a new store is empty and consistent |
| Cms.Store.InitializeSystem | app/actions/cms.ts:7-48 | the in-place bootstrap leaves the store in the state `CmsSpec.InitializeSystem` describes, and keeps it valid |
| Cms.Store.UpsertEach | app/actions/cms.ts:39-45 | the `for` loop's in-place upserts give `UpsertAll` of the seeds and touch no other table |
| Cms.Store.CreateDivision | app/actions/cms.ts:51-61 | the new tables and outcome are those of `CmsSpec.CreateDivision` |
| Cms.Store.UpdateDivision | app/actions/cms.ts:63-75 | the new tables and outcome are those of `CmsSpec.UpdateDivision` |
| Cms.Store.DeleteDivision | app/actions/cms.ts:77-80 | the new tables and outcome are those of `CmsSpec.DeleteDivision` |
| Cms.Store.CreateProject | app/actions/cms.ts:83-98 | the new tables and outcome are those of `CmsSpec.CreateProject` |
| Cms.Store.UpdateProject | app/actions/cms.ts:100-116 | the new tables and outcome are those of `CmsSpec.UpdateProject` |
| Cms.Store.DeleteProject | app/actions/cms.ts:118-121 | the new tables and outcome are those of `CmsSpec.DeleteProject` |
| Cms.Store.CreateMember | app/actions/cms.ts:124-138 | the new tables and outcome are those of `CmsSpec.CreateMember` |
| Cms.Store.UpdateMember | app/actions/cms.ts:140-155 | the new tables and outcome are those of `CmsSpec.UpdateMember` |
| Cms.Store.DeleteMember | app/actions/cms.ts:157-160 | the new tables and outcome are those of `CmsSpec.DeleteMember` |
| Cms.Store.CreateAchievement | app/actions/cms.ts:163-178 | the new tables and outcome are those of `CmsSpec.CreateAchievement` |
| Cms.Store.UpdateAchievement | app/actions/cms.ts:180-196 | the new tables and outcome are those of `CmsSpec.UpdateAchievement` |
| Cms.Store.DeleteAchievement | app/actions/cms.ts:198-201 | the new tables and outcome are those of `CmsSpec.DeleteAchievement` |
| Cms.Store.CreateTechStack | app/actions/cms.ts:204-216 | the new tables and outcome are those of `CmsSpec.CreateTechStack` |
| Cms.Store.DeleteTechStack | app/actions/cms.ts:218-221 | the new tables and outcome are those of `CmsSpec.DeleteTechStack` |
| AdminForms.TagsDefault | components/admin/forms.tsx:121 | the tags field is empty for a row with no tags, is the tag itself for one tag, and starts with the first tag and `", "` for several |
| AdminForms.Action | components/admin/forms.tsx:83-90 | the dialog calls the update action of its kind when editing and the create action otherwise, and always the create action for the tech stack; the action keeps consistency; a failure leaves the tables unchanged; a completed create or update stores the submitted `imageUrl` on the row it targets, an update reading the appended `id` |
| AdminForms.AfterAction | components/admin/forms.tsx:86-91 | after a completed action the effects are the success toast, then the close when it was asked for, and nothing else; a rejected action records only the rejection |
| AdminForms.ImageSubmit | components/admin/forms.tsx:79-92 | without an uploaded image the only effect is the guard toast, and neither the form data nor the tables change; otherwise the image (and the id when editing) is appended, the tables are those the action produced, and the effects are exactly those that follow the action: success toast then close when it completed, the rejection when it failed; consistency is kept |
| AdminForms.SubmittedLookups | components/admin/forms.tsx:81-84 | the action reads back the uploaded URL as `imageUrl` and, when editing, the dialog's row as `id` |
| AdminForms.SubmitStoresUploadedImage | components/admin/forms.tsx:79-92 | after a submit that closes the dialog, the edited (or created) row stores the uploaded URL |
| AdminForms.TagsRoundTrip | components/admin/forms.tsx:121 | re-saving an edit dialog with its prefilled tags (joined with `", "`) stores the same non-empty list of trimmed comma-free tags |
| AdminForms.TagsStable | components/admin/forms.tsx:121 | after one save, every further unchanged save stores the same tags |
| AdminForms.TagsEmptyBecomesOneEmptyTag | components/admin/forms.tsx:121 | a row with no tags shows an empty tags field; the browser's `required` check stops the dialog from saving it, and an empty tags value sent to the action directly is stored as one empty tag |
| AdminForms.DivisionSubmit | components/admin/forms.tsx:33-43 | editing appends the id and the tables are those of the update, creating does not append it and the tables are those of the create; the effects are exactly those that follow the action: the matching success toast, then `onSuccess` when it was passed, when the action completed, and the rejection alone when it failed; consistency is kept |
| AdminForms.DivisionEditTargetsRow | components/admin/forms.tsx:34-36 | the edit dialog's update reads the dialog's own id and rewrites that division |
| AdminForms.DivisionForm.HandleSubmit | components/admin/forms.tsx:33-43 | the in-place appends and store changes, and the effects, are those of `DivisionSubmit` |
| AdminForms.ImageForm.constructor | components/admin/forms.tsx:76 | the image state starts as the edited row's URL, or empty for a new row |
| AdminForms.ImageForm.SetImageUrl | components/admin/forms.tsx:111 | the uploader's callback sets the image state to the reported URL |
| AdminForms.ImageForm.HandleSubmit | components/admin/forms.tsx:79-92 | the in-place appends and store changes, and the effects, are those of `ImageSubmit` for this dialog's kind and state |
| IconMapper.GetIconByName | lib/icon-maper.ts:3-7 | the result is an icon other than `HelpCircle` exactly for the four table names, and that icon has the name asked for |
| IconMapper.LookupIsCaseSensitive | lib/icon-maper.ts:3-7 | `"cpu"` falls back to `HelpCircle` while `"Cpu"` finds `Cpu` |
| IconMapper.DefaultDivisionIconFallsBack | lib/icon-maper.ts:3-7 | the default division icon name `"FolderKanban"` resolves to `HelpCircle` |
| Pagination.CurrentPage | components/admin/pagination-control.tsx:21 | the page is never 0; it is 1 for an absent, zero or non-numeric parameter and the parameter's number otherwise |
| Pagination.TotalPages | components/admin/pagination-control.tsx:22 | the page count is the least one whose pages hold all the rows |
| Pagination.SeveralPages | components/admin/pagination-control.tsx:22-30 | there is more than one page exactly when the rows do not fit on one page |
| Pagination.PageChange | components/admin/pagination-control.tsx:24-27 | the new query string selects the new page and keeps every other parameter |
| Pagination.Render | components/admin/pagination-control.tsx:21-54 | nothing is rendered exactly when the rows fit on one page; Previous is disabled exactly at page 1 or below and leads to the page before the current one, and Next is disabled exactly at the last page or beyond and leads to the page after it |
| Pagination.EnabledButtonStaysInRange | components/admin/pagination-control.tsx:43-54 | from a page in range, an enabled button leads to the neighbouring page, which is again in range |
| SortControl.CurrentSort | components/admin/sort-control.tsx:10 | the current sort is the parameter's value when present and non-empty, even an unrecognised one, and `"desc"` otherwise |
| SortControl.HandleSort | components/admin/sort-control.tsx:12-16 | the new query string selects the chosen value and keeps every other parameter |
| SortControl.OfferedChoicesAreShown | components/admin/sort-control.tsx:21-28 | each offered choice, `desc` and `asc`, is shown as current once chosen |
| SortControl.SortKeepsPage | components/admin/sort-control.tsx:13-14 | changing the sort leaves the pager's current page as it was |
| DivisionsTabs.TabIcon | components/public/divisions-tabs.tsx:8-10 | a tab icon has the division's icon name exactly for the five table names, and is `FolderKanban` otherwise |
| DivisionsTabs.TabIconAgrees | components/public/divisions-tabs.tsx:15 | the tab icons agree with `getIconByName` except for the fallback |
| DivisionsTabs.FindBySlug | components/public/divisions-tabs.tsx:14 | `find` returns the first division with the slug, or none when no division has it |
| DivisionsTabs.ActiveData | components/public/divisions-tabs.tsx:14 | the panel shows the first division with the active slug when there is one, and the first division of the list otherwise |
| DivisionsTabs.HeroIcon | components/public/divisions-tabs.tsx:15 | the hero icon is the shown division's named icon exactly when that name is one of the five table names, and `FolderKanban` otherwise |
| DivisionsTabs.ShownProjects | components/public/divisions-tabs.tsx:77 | at most four projects are shown: the first ones, in order |
| DivisionsTabs.ProjectLink | components/public/divisions-tabs.tsx:78 | a project card links to its GitHub URL when it has a non-empty one, and to `#` otherwise |
| DivisionsTabs.AtMostOneActive | components/public/divisions-tabs.tsx:22 | with distinct slugs at most one tab is highlighted |
| DivisionsTabs.SelectedIsShown | components/public/divisions-tabs.tsx:14-27 | with distinct slugs, the clicked tab's division is the one the panel shows |
| DivisionsTabs.InitiallyFirst | components/public/divisions-tabs.tsx:13-14 | before any click the first division is shown and its tab is highlighted |
| DivisionsTabs.Tabs.constructor | components/public/divisions-tabs.tsx:13 | the active tab starts as the first division's slug, or `""` for an empty list |
| DivisionsTabs.Tabs.Select | components/public/divisions-tabs.tsx:27 | a click makes that division's slug active and, with distinct slugs, makes the panel show it |

## Left out

- Database I/O and caching: Prisma calls are replaced by the maps of `Cms.Store`. `revalidatePath` is returned as the path in the `Done` outcome. `router.push` is returned as the new query string. Awaiting and concurrency between requests are not modelled.
- Row ids and `createdAt`: the database generates these. Ids are parameters of the create operations; timestamps are not modelled.
- The database schema: uniqueness of `Division.slug`, the foreign keys and the delete rule are assumptions of the model, made explicit as the failures listed above.
- Missing required fields: the source would throw on them or pass `null` to Prisma. The model makes them the `MissingField` failure, with the tables unchanged.
- Empty required fields: an action called with an empty title or slug stores it as it is, as in the source; the actions themselves reject nothing.
- AdminForms.DivisionSubmit and AdminForms.ImageSubmit: the browser's constraint validation of the dialogs' `required` inputs is not modelled, so both accept forms with empty fields that the browser would refuse to submit.
- `String.prototype.trim`: only a fixed whitespace set is stripped, not the full Unicode class.
- JsNumber.ToNumber: only optionally signed decimal integers are read. Fractions, exponents, hexadecimal and `Infinity` read as NaN, so a page parameter such as `2.5` selects page 1 here but page 2.5 in the browser. Numbers are unbounded integers, not doubles: a page beyond 2^53 loses precision in the browser but not here.
- JsNumber.IntToString: gives plain decimal digits for every integer; the browser switches to exponent form (`1e+21`) from 10^21 on, so the round trip is stated for integers only, without that bound.
- Pagination.TotalPages: requires a positive page size and a non-negative count. Every caller passes a positive constant; division by zero is not modelled.
- IconMapper.GetIconByName: object-prototype keys such as `constructor` are not modelled; here every name outside the table falls back to `HelpCircle`.
- DivisionsTabs.TabIcon: the same holds for the component's own icon table; `iconMap["constructor"]` is not modelled, and every name outside the table falls back to `FolderKanban`.
- DivisionsTabs.HeroIcon: as for `TabIcon`, object-prototype keys are not modelled.
- DivisionsTabs.ActiveData: requires a non-empty list. With no divisions the component reads a field of `undefined` and fails to render.
- The image upload itself (network fetch, object URLs) is not part of this model. Only the URL the uploader reports, through `SetImageUrl`, is.
- Rendering: markup, class names, counters (`_count`), animations and toasts' presentation are not modelled. Toasts, the close callback and a rejected action are recorded as an effect sequence.
- Authentication, sessions, the seed script and the admin listing pages are not part of this model.
- There is no update action for tech-stack entries. The tech-stack dialog always creates, even when opened on an existing row, and the model does the same.

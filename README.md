# SiteMaster Diary: a verified model of the local store and its rules

SiteMaster Diary is a construction-site diary that runs in the browser. It
keeps its jobs, daily logs, tasks, material orders, tools, inventory, crew,
checklist templates, settings and time entries in ten local document
collections. This project models in Dafny:

- the entity store (`src/components/db/database.jsx`): required-field
  validation, HTML escaping, create / update / delete / get / getAll / query
  over each collection, the named per-collection queries, the settings
  singleton, and the global search;
- the pure rules around the store: the job card's due-date priority and
  per-job figures, the dashboard tiles, the progress chart's series and
  counts, `cn` and `createPageUrl`, the app-parameter lookup, and the page
  name resolution of the navigation tracker;
- the eight entry forms: their defaults, validators, sanitised submit, and
  list editors;
- the five pages that write to the store (job detail, dashboard, inventory,
  crew, safety checklists) and the global search dialog.

Layout, one module per file:

| module | models |
|---|---|
| `Json` | JavaScript values: `undefined`, truthiness, `===`, numbers from values |
| `Text`, `Seqs`, `Ordering` | `trim`, ASCII `toLowerCase`, `includes`, `substring`; `filter`, `reduce`, `slice`; id order |
| `Sanitizer` | `sanitizeInput` |
| `Validation` | `validateRequired` |
| `Documents` | one collection as a map from id to document: create, update, delete, get, getAll, query, settings |
| `Store` | class `EntityStore`: one map per collection; its methods change one collection each |
| `Search` | `globalSearch` |
| `JobCard`, `DashboardStats`, `ProgressChart` | derived figures |
| `Utils`, `AppParams`, `Navigation` | `cn` / `createPageUrl`, app parameters, page-view tracking |
| `FormRules` and one module per form | the entry forms |
| `PageActions` and one module per page | save / delete handlers and page filters |
| `GlobalSearchView` | the search dialog |

Representation choices:

- A document is a `map<string, Value>`; an absent key is `undefined`.
- A fresh id (`uuidv4()`) and the current time (`new Date().toISOString()`)
  are parameters of the operations that use them.
- Date strings are turned into instants by a supplied `parse` function.
  An instant is an integer number of milliseconds.
- Hours, quantities and progress are integers.
- `parseInt` / `parseFloat` results are supplied as `Option<int>`, where
  `None` stands for NaN.

The store's collections are ordinary maps. `db.put` accepts a new document
only under a non-empty id that is not yet taken; a revision is accepted only
under the same id.

## Model

| member | source | states |
|---|---|---|
| Sanitizer.SanitizeValue | src/components/db/database.jsx:17-25 | non-strings (and `undefined`) come back unchanged; a string is escaped |
| Sanitizer.Entity | src/components/db/database.jsx:20-24 | each of & < > " ' becomes an entity starting with '&'; every other character stays itself |
| Sanitizer.SanitizeIsPerChar | src/components/db/database.jsx:19-24 | the replacement chain escapes each character independently (ampersand first, so no entity is escaped twice) |
| Sanitizer.SanitizedHasNoRawMarkup | src/components/db/database.jsx:19-24 | escaped text holds no raw < > " or ' |
| Sanitizer.SanitizeFixesIffNoSpecials | src/components/db/database.jsx:19-24 | escaping changes a string exactly when it holds one of the five special characters |
| Sanitizer.SanitizeIdempotentIffNoSpecials | src/components/db/database.jsx:19-24 | escaping twice equals escaping once exactly when the original has no special character |
| Sanitizer.AmpersandEscapedAgain | src/components/db/database.jsx:20 | an ampersand is escaped on every pass: "&" + s becomes "&amp;" + escape(s) |
| Sanitizer.EntityEscapedAgain | src/components/db/database.jsx:20 | an already stored entity such as "&lt;" gains one "amp;" |
| Sanitizer.StoredAmpersandEscapedAgain | src/components/db/database.jsx:20 | "&amp;" is escaped to "&amp;amp;" |
| Sanitizer.SanitizeRoundTrip | src/components/db/database.jsx:17-25 | escaping loses nothing: decoding the five entities gives the input back |
| Text.TrimEmptyIffBlank | src/components/db/database.jsx:31 | `!s.trim()` holds exactly for strings made only of white space |
| Text.TrimIsCore | src/components/db/database.jsx:31 | the trimmed string is the part of the input between leading and trailing white space and neither starts nor ends with white space |
| Text.Lower | src/components/db/database.jsx:217 | `toLowerCase` keeps the length and maps each character to its lower-case form |
| Text.LowerIdempotent | src/components/db/database.jsx:217 | lower-casing twice is lower-casing once |
| Text.ContainsIffOccurs | src/components/db/database.jsx:230 | `includes` holds exactly when the part occurs at some index |
| Text.Prefix | src/components/charts/ProgressChart.jsx:61 | `substring(0, n)` is a prefix of at most n characters, the whole string when it is short enough |
| Seqs.Filter | src/components/db/database.jsx:83 | `filter` keeps exactly the elements satisfying the predicate and never grows the list |
| Seqs.FilterIsSublist | src/components/db/database.jsx:83 | a filtered list is an order-preserving sublist |
| Seqs.RemoveIndex | src/components/forms/DailyLogForm.jsx:63-68 | dropping index i shifts the later elements down by one; an index out of range removes nothing |
| Seqs.RemoveIndexMultiset | src/components/forms/DailyLogForm.jsx:63-68 | dropping index i removes exactly that one element |
| Seqs.Take | src/components/pages/SafetyChecklist.jsx:155 | `slice(0, n)` is the first min(n, length) elements |
| Ordering.SortedKeys | src/components/db/database.jsx:77 | the ids in ascending order, each once |
| Json.NumOrZero | src/components/dashboard/JobCard.jsx:44 | `(v || 0)`: a falsy value counts 0, a number counts itself, `true` counts 1 |
| Validation.Violations | src/components/db/database.jsx:28-36 | at most one message per required field; no messages exactly when no field is missing; each missing field's message is present and every message belongs to a missing field |
| Validation.ValidateRequired | src/components/db/database.jsx:28-36 | the loop collects exactly `Violations`, in field order |
| Validation.DuplicateFieldReportedTwice | src/components/db/database.jsx:30-33 | a field listed twice is reported twice |
| Validation.ZeroIsMissing | src/components/db/database.jsx:31 | 0, false, null and "" all count as missing |
| Documents.RequiredFields | src/components/db/database.jsx:88-204 | every collection's create checks one to three fields |
| Documents.PutNew | src/components/db/database.jsx:52 | a new document is stored exactly when its id is a non-empty unused string; otherwise nothing changes |
| Documents.PutRevision | src/components/db/database.jsx:63 | a revision is stored exactly when it keeps the document's id; otherwise nothing changes |
| Documents.NewDoc | src/components/db/database.jsx:45-50 | both timestamps are `now`; the id is the caller's `_id` if given, else the fresh id; every other field is the caller's |
| Documents.CreateDocument | src/components/db/database.jsx:39-54 | fails with the joined messages exactly when validation fails, storing nothing; otherwise it puts `NewDoc` |
| Documents.Merged | src/components/db/database.jsx:58-62 | patch fields override, the other stored fields stay, `updatedAt` is `now` |
| Documents.UpdateDocument | src/components/db/database.jsx:56-65 | fails with not-found exactly when the id is absent; otherwise it stores the merge as a new revision; required fields are not re-checked |
| Documents.DeleteDocument | src/components/db/database.jsx:67-70 | fails with not-found exactly when the id is absent; otherwise removes that one document |
| Documents.GetDocument | src/components/db/database.jsx:72-74 | the stored document, or not-found |
| Documents.VisibleIds | src/components/db/database.jsx:78 | exactly the stored ids not starting with "_" |
| Documents.VisibleOrder | src/components/db/database.jsx:77-78 | the visible ids, ascending, each once |
| Documents.GetAllDocuments | src/components/db/database.jsx:76-79 | the documents stored under the visible ids, in that order |
| Documents.GetAllComplete | src/components/db/database.jsx:76-79 | a document is listed exactly when it is stored under its own visible id |
| Documents.GetAllOrdered | src/components/db/database.jsx:77 | the listing is in strictly ascending id order |
| Documents.QueryIsFilteredListing | src/components/db/database.jsx:81-84 | a query returns exactly the listed documents its predicate accepts, as an order-preserving sublist |
| Documents.CreatePreservesKeying | src/components/db/database.jsx:39-54 | after a create every document is still stored under its own id |
| Documents.UpdatePreservesKeying | src/components/db/database.jsx:56-65 | the same for an update |
| Documents.DeletePreservesKeying | src/components/db/database.jsx:67-70 | the same for a delete |
| Documents.CreateThenGet | src/components/db/database.jsx:39-54 | after a successful create, `get` of the new id returns the document, and every other id is untouched |
| Documents.CreateSucceedsWithFreshId | src/components/db/database.jsx:39-54 | valid data without an id, under an unused fresh id, is always stored |
| Documents.CreateWithTakenIdConflicts | src/components/db/database.jsx:45-52 | data repeating a stored id is refused and changes nothing |
| Documents.CreateGrowsListing | src/components/db/database.jsx:39-54 | a visible create lengthens the listing by exactly one |
| Documents.UpdateThenGet | src/components/db/database.jsx:56-65 | an update always succeeds on a stored id; `get` then returns the merge, and other documents are untouched |
| Documents.UpdateCannotRename | src/components/db/database.jsx:56-65 | a patch carrying a different `_id` is refused |
| Documents.DeleteThenGet | src/components/db/database.jsx:67-70 | after a delete, `get` fails and the listing is one shorter |
| Documents.LowStockEdges | src/components/db/database.jsx:147 | the modelled low-stock query misses items with no quantity or a text quantity, and counts `null` as 0 |
| Documents.DefaultSettings | src/components/db/database.jsx:174-180 | id 'app_settings', company name 'SiteMaster Diary', dark mode, logo and background off |
| Documents.SettingsGet | src/components/db/database.jsx:170-182 | the stored settings, or the defaults when none are stored |
| Documents.SettingsUpdate | src/components/db/database.jsx:183-199 | merges into the stored settings; without them, stores a new document holding only the id, the data and timestamps |
| Documents.SettingsUpdatePreservesKeying | src/components/db/database.jsx:183-199 | settings stay stored under their own id |
| Documents.SettingsUpdateThenGet | src/components/db/database.jsx:183-199 | an update without an id always succeeds, and `get` then shows every updated field |
| Documents.FirstUpdateDropsDefaults | src/components/db/database.jsx:170-199 | reading returns defaults without writing them, so the first update stores no company name |
| Store.EntityStore.constructor | src/components/db/database.jsx:5-14 | all ten collections start empty |
| Store.EntityStore.SetTable | src/components/db/database.jsx:5-14 | replaces one collection and leaves the others and the settings alone |
| Store.EntityStore.Create | src/components/db/database.jsx:88 | one collection's create is `CreateDocument` over that collection's required fields; no other collection changes |
| Store.EntityStore.Update | src/components/db/database.jsx:89 | one collection's update is `UpdateDocument`; no other collection changes |
| Store.EntityStore.Delete | src/components/db/database.jsx:90 | one collection's delete is `DeleteDocument`; nothing else changes, so there is no cascade |
| Store.EntityStore.Get | src/components/db/database.jsx:91 | succeeds exactly for a stored id and returns that document |
| Store.EntityStore.Run | src/components/db/database.jsx:103-212 | each named query (`getByJob`, `getByDate`, `getByStatus`, `getByPriority`, `getPending`, the tools' `getByJob`, `getLowStock`, `getByDateRange`) returns exactly the listed documents its predicate accepts, in order |
| Store.EntityStore.UpdateSettings | src/components/db/database.jsx:183-199 | the settings become `SettingsUpdate` of the old settings; no collection changes |
| Store.PendingOrdersArePending | src/components/db/database.jsx:127 | every pending order has status "pending" |
| Store.LowStockIsAtOrBelow | src/components/db/database.jsx:147 | every low-stock item has a numeric (or null) quantity at most the threshold |
| Search.FieldMatch | src/components/db/database.jsx:230 | `d[k]?.toLowerCase().includes(term)` is true exactly for a string field containing the term, and throws exactly for a non-null non-string field |
| Search.AnyFieldMatchesMeaning | src/components/db/database.jsx:229-233 | when the `||` chain completes, it matches exactly when one field is a string containing the term |
| Search.AnyFieldMatchesThrows | src/components/db/database.jsx:229-233 | the chain throws exactly when, before any match, it reaches a field that is neither a string nor null |
| Search.SearchListIsFilter | src/components/db/database.jsx:229-233 | a list search rejects exactly when some document throws, and otherwise is the filter of the list |
| Search.SearchListExact | src/components/db/database.jsx:216-274 | each result list is an order-preserving sublist whose members are exactly the listed documents with a searched field containing the term |
| Search.SearchIgnoresTermCase | src/components/db/database.jsx:217 | the search does not depend on the case of the term |
| Search.NumericJobNameRejects | src/components/db/database.jsx:229-230 | a visible job whose name is a number makes the whole search reject |
| Search.EmptyTermFindsTextual | src/components/db/database.jsx:216-274 | with an empty term every document with a string in a searched field is found |
| JobCard.WholeDays | src/components/dashboard/JobCard.jsx:17 | `differenceInDays` counts whole days, truncated toward zero |
| JobCard.WholeDaysMonotone | src/components/dashboard/JobCard.jsx:17 | a later instant never gives fewer whole days |
| JobCard.PriorityTable | src/components/dashboard/JobCard.jsx:15-23 | urgent up to 2 days (overdue included), high 3..7, medium 8..14, low beyond |
| JobCard.UrgentIffUnderThreeDays | src/components/dashboard/JobCard.jsx:15-23 | a due date is urgent exactly when it is less than three full days away |
| JobCard.PriorityMonotone | src/components/dashboard/JobCard.jsx:15-23 | a later due date never gets a more urgent label |
| JobCard.CardListsSelect | src/components/dashboard/JobCard.jsx:26-33 | the active, high-priority, pending-order and tool lists hold exactly the job's documents the card describes |
| JobCard.ActivePlusCompleted | src/components/dashboard/JobCard.jsx:26-27 | active and completed tasks make up all of the job's tasks |
| JobCard.Earliest | src/components/dashboard/JobCard.jsx:49-51 | the first element after the stable sort: absent only for an empty list, otherwise a member that no other is due before, and every element ahead of it is due strictly later |
| JobCard.NearestDeadlineExists | src/components/dashboard/JobCard.jsx:47-52 | there is a deadline exactly when the job has an open task with a due date, and it is one of them |
| JobCard.DeadlineIsMostUrgent | src/components/dashboard/JobCard.jsx:47-52 | the deadline badge is at least as urgent as any open task of the job whose date parses |
| DashboardStats.TasksDone | src/components/dashboard/DashboardStats.jsx:7-8 | completed is at most the total, which is the number of tasks |
| DashboardStats.CeilDays | src/components/dashboard/DashboardStats.jsx:25 | `Math.ceil` of the days until due |
| DashboardStats.ActiveJobMeaning | src/components/dashboard/DashboardStats.jsx:6 | a job is active when its status is 'active' or falsy |
| DashboardStats.AvailableToolMeaning | src/components/dashboard/DashboardStats.jsx:10 | a tool is available when its `assignedJobId` is missing or falsy |
| DashboardStats.UrgentIffWithinTwoDays | src/components/dashboard/DashboardStats.jsx:23-27 | an open task with a due date is urgent when it is due at most two days from now |
| DashboardStats.OverdueCounted | src/components/dashboard/DashboardStats.jsx:23-27 | every overdue open task is counted as urgent |
| DashboardStats.UrgentTileRedIffAny | src/components/dashboard/DashboardStats.jsx:35 | the tile is red exactly when some task is urgent |
| DashboardStats.DashboardUrgentIsCardUrgent | src/components/dashboard/DashboardStats.jsx:23-27 | a task urgent on the dashboard is urgent on its job card |
| DashboardStats.RoundingDisagrees | src/components/dashboard/DashboardStats.jsx:25 | a task due in 2.5 days is urgent on the card but not on the dashboard, because the card truncates days and the dashboard rounds them up |
| DashboardStats.CardHoursWithinDashboard | src/components/dashboard/DashboardStats.jsx:18-20 | with no negative hours, a card's weekly hours never exceed the dashboard's |
| Utils.Kept | src/components/utils/index.ts:2 | `filter(Boolean)` keeps no empty name and never grows the list |
| Utils.Split | src/components/lib/NavigationTracker.jsx:24 | `split` gives at least one piece |
| Utils.SplitJoin | src/components/utils/index.ts:2 | splitting a join at its separator gives the parts back when no part contains it |
| Utils.KeptMeaning | src/components/utils/index.ts:1-3 | exactly the truthy names are kept; none when all arguments are falsy |
| Utils.CnSplitsBack | src/components/utils/index.ts:1-3 | `cn` is "" exactly when every argument is falsy; otherwise splitting at spaces gives the truthy names in order |
| Utils.BaseNoTrail | src/components/utils/index.ts:12 | one trailing slash is dropped from the base |
| Utils.Collapse | src/components/utils/index.ts:25 | collapsing slashes never lengthens the URL |
| Utils.CollapseNoDouble | src/components/utils/index.ts:25 | the result has no doubled slash |
| Utils.CollapseFixes | src/components/utils/index.ts:25 | text without a doubled slash is unchanged |
| Utils.EmptyPageIsBase | src/components/utils/index.ts:14 | a missing or empty page gives the base |
| Utils.NonStringBaseIsRoot | src/components/utils/index.ts:10-11 | a base that is not a string acts as "/" |
| Utils.NoDoubleSlashForPages | src/components/utils/index.ts:24-25 | for a non-empty page the URL never contains "//" |
| Utils.SplashIsRoot | src/components/utils/index.ts:19-24 | "Splash" gives the base with one trailing slash |
| Utils.LeadingSlashIgnored | src/components/utils/index.ts:21 | "/Page" and "Page" give the same URL |
| Utils.PageKeptVerbatim | src/components/utils/index.ts:6-8 | a page without slashes, query included, ends the URL after a slash |
| Utils.DefaultBaseUrl | src/components/utils/index.ts:24-25 | with the default base a slash-free page gives "/" + page |
| Utils.PrefixedPageUrl | src/components/utils/index.ts:24-25 | the same for a page built from a prefix and a slash-free rest |
| Utils.JobDetailUrl | src/components/utils/index.ts:7 | a job's detail page is "/JobDetail?id=<id>" |
| AppParams.MarkCapitals | src/components/lib/app-params.js:10 | marking capitals adds one character per capital |
| AppParams.ToSnakeCaseIsReplaceThenLower | src/components/lib/app-params.js:9-11 | the snake-case name is the replace followed by lower-casing |
| AppParams.SnakeCaseShape | src/components/lib/app-params.js:9-11 | the result has no capitals and is one character longer per capital |
| AppParams.SnakeCaseRoundTrip | src/components/lib/app-params.js:9-11 | a name without '_' is recovered from its snake-case form |
| AppParams.SnakeNamesKeepSpelling | src/components/lib/app-params.js:17 | a name with no capitals is stored under "base44_" + name |
| AppParams.LocalDevModeDefaults | src/components/lib/app-params.js:7 | local-dev mode is on when the variable is unset, null or 'TRUE' |
| AppParams.LocalDevModeFromBoolean | src/components/lib/app-params.js:7 | the boolean true also switches it on |
| AppParams.LocalDevModeOff | src/components/lib/app-params.js:7 | 'false' and '' switch it off |
| AppParams.ResolvePrecedence | src/components/lib/app-params.js:27-40 | URL value first, then a truthy default, then storage, then null |
| AppParams.StorageAfterFrame | src/components/lib/app-params.js:27-36 | only the parameter's own key is written, and it holds the value found |
| AppParams.ResolveStable | src/components/lib/app-params.js:27-40 | a second lookup gives the same value and writes nothing new |
| AppParams.AppEnvironment.constructor | src/components/lib/app-params.js:1-3 | the environment starts from the given storage, query and mode flags |
| AppParams.AppEnvironment.GetAppParamValue | src/components/lib/app-params.js:13-41 | in node or local-dev mode returns the default and touches nothing; otherwise resolves by precedence, writes the key, and removes the URL parameter when asked |
| AppParams.AppEnvironment.GetAppParams | src/components/lib/app-params.js:43-69 | local-dev mode returns nulls and the page address without reading storage; otherwise the result and the final storage are `BrowserLoad`: the optional token clearing, then the five lookups in order, each against the storage the previous one left, the last three on the query without `access_token` |
| AppParams.ParamKeyOf | src/components/lib/app-params.js:17 | each looked-up parameter is stored under "base44_" and its own name |
| AppParams.LoadNamedRemembers | src/components/lib/app-params.js:27-35 | for any five parameters with distinct keys, every value that comes out non-null is in storage under its own key after the load |
| AppParams.LoadRemembersParams | src/components/lib/app-params.js:61-68 | after a browser load, storage holds each non-null parameter under its key |
| AppParams.LoadNamedFallsBack | src/components/lib/app-params.js:37-40 | for any five parameters with distinct keys, one with no URL value and no default is the truthy value stored before the load, or null |
| AppParams.AfterClearKeepsKey | src/components/lib/app-params.js:56-59 | the clearing step writes only its own key and removes only `base44_access_token` and `token` |
| AppParams.LoadFallsBackToStorage | src/components/lib/app-params.js:37-40 | with nothing in the URL and no default, `fromUrl`, `functionsVersion` and `appBaseUrl` are the stored values from an earlier load, or null |
| AppParams.ClearAccessTokenEmptiesToken | src/components/lib/app-params.js:56-59 | `clear_access_token=true` without a token in the URL gives an empty token |
| AppParams.ClearRequestIsRemembered | src/components/lib/app-params.js:56 | the clearing request is itself stored, so later loads keep clearing |
| Navigation.MainPageKey | src/components/lib/NavigationTracker.jsx:12 | `mainPage`, else the first page key, else nothing |
| Navigation.DropLeadingSlash | src/components/lib/NavigationTracker.jsx:24 | exactly one leading slash is dropped |
| Navigation.FindKey | src/components/lib/NavigationTracker.jsx:26 | the first key equal to the segment ignoring case, or none when no key is |
| Navigation.MainPageIsSplash | src/components/lib/NavigationTracker.jsx:12 | with the application's routes the main page is 'Splash' |
| Navigation.RootIsMainPage | src/components/lib/NavigationTracker.jsx:21-22 | "/" and "" name the main page |
| Navigation.ResolveFindsFirstKey | src/components/lib/NavigationTracker.jsx:24-27 | other paths name the first key matching their first segment, or nothing |
| Navigation.SegmentNamesItsKey | src/components/lib/NavigationTracker.jsx:24-27 | a path whose segment is a key in any case names that key |
| Navigation.SubpathNamesItsKey | src/components/lib/NavigationTracker.jsx:24 | whatever follows the next slash is ignored |
| Navigation.LocalDevModeLogsNothing | src/components/lib/NavigationTracker.jsx:16 | in local-dev mode no page view is logged |
| Navigation.PageViewMeaning | src/components/lib/NavigationTracker.jsx:30-33 | a page view is logged exactly for an authenticated user on a resolved page, and names that page |
| FormRules.NoTextMeaning | src/components/forms/JobForm.jsx:26 | `!v?.trim()` holds for absent, null and blank values |
| FormRules.FormAndStoreAgreeOnText | src/components/forms/JobForm.jsx:26 | for a text field the form's check and `validateRequired` agree |
| FormRules.Check | src/components/forms/JobForm.jsx:26-27 | a failed check sets that field's message and nothing else |
| FormRules.NoErrorsMeaning | src/components/forms/JobForm.jsx:29 | no errors exactly when no field has a message |
| FormRules.ClearError | src/components/forms/JobForm.jsx:50-52 | only that field's message is cleared, and only when it had one |
| FormRules.SanitizeFields | src/components/forms/JobForm.jsx:36-41 | exactly the listed fields are escaped; others pass unchanged |
| FormRules.SubmitEscapesExactly | src/components/forms/JobForm.jsx:32-46 | submit happens exactly with no errors and escapes exactly the listed fields |
| FormRules.SubmittedField | src/components/forms/JobForm.jsx:36-41 | a listed text field is stored escaped; a listed non-text field as it was |
| FormRules.ResavingEscapesAgain | src/components/forms/JobForm.jsx:12 | resaving a stored record escapes its ampersands again |
| FormRules.OrFallback | src/components/forms/OrderForm.jsx:96 | `parseInt(x) || fallback` |
| FormRules.WithList | src/components/forms/DailyLogForm.jsx:70-77 | replaces one list field and nothing else |
| FormRules.ToggleMeaning | src/components/forms/DailyLogForm.jsx:70-77 | a present value is removed everywhere; an absent one is appended once |
| FormRules.ToggleTwiceRestores | src/components/forms/DailyLogForm.jsx:70-77 | toggling an absent value twice restores the list |
| FormRules.ToggleKeepsOthers | src/components/forms/DailyLogForm.jsx:70-77 | toggling never affects any other value |
| FormRules.MapAt | src/components/forms/DailyLogForm.jsx:79-86 | only index i changes |
| FormRules.MemberOf | src/components/forms/DailyLogForm.jsx:79-86 | a member of an object element; nothing for other elements |
| FormRules.SetMember | src/components/forms/DailyLogForm.jsx:95-102 | sets one member and keeps the others |
| DailyLogForm.Initial | src/components/forms/DailyLogForm.jsx:17-34 | the stored log when editing, the defaults otherwise |
| DailyLogForm.SetHoursWorked | src/components/forms/DailyLogForm.jsx:148 | NaN input becomes 0; only the hours change |
| DailyLogForm.DefaultsMeaning | src/components/forms/DailyLogForm.jsx:17-34 | a new log is for today, 8 hours, no crew or photos, five unchecked checklist items |
| DailyLogForm.ValidateMeaning | src/components/forms/DailyLogForm.jsx:38-43 | valid exactly when the date is truthy; otherwise the date is the only error |
| DailyLogForm.DefaultsAreValid | src/components/forms/DailyLogForm.jsx:17-43 | a new log with a date passes |
| DailyLogForm.HandleSubmitMeaning | src/components/forms/DailyLogForm.jsx:104-116 | submit escapes the notes and safety observations only; an invalid form sends nothing |
| DailyLogForm.RemovePhotoMeaning | src/components/forms/DailyLogForm.jsx:63-68 | exactly photo i is removed and the others stay in order |
| DailyLogForm.RemoveAddedPhoto | src/components/forms/DailyLogForm.jsx:45-68 | removing the photo just added restores the form |
| DailyLogForm.ToggleCrewMemberMeaning | src/components/forms/DailyLogForm.jsx:70-77 | toggling removes every occurrence or appends once; nothing else changes |
| DailyLogForm.ToggleCrewMemberTwice | src/components/forms/DailyLogForm.jsx:70-77 | toggling an absent member twice restores the form |
| DailyLogForm.ToggleChecklistItemMeaning | src/components/forms/DailyLogForm.jsx:79-86 | only entry i's flag flips; texts and length stay |
| DailyLogForm.ToggleChecklistItemTwice | src/components/forms/DailyLogForm.jsx:79-86 | flipping a boolean flag twice restores the form |
| DailyLogForm.AddChecklistItemMeaning | src/components/forms/DailyLogForm.jsx:88-93 | appends one unchecked empty entry |
| DailyLogForm.UpdateChecklistItemMeaning | src/components/forms/DailyLogForm.jsx:95-102 | only entry i's text changes; its flag stays |
| DailyLogForm.AddThenType | src/components/forms/DailyLogForm.jsx:88-102 | typing into a new entry gives an unchecked entry with that text |
| ChecklistForm.TemplateItems | src/components/forms/ChecklistForm.jsx:10-37 | exactly three built-in templates: safety, opening and closing |
| ChecklistForm.Strs | src/components/forms/ChecklistForm.jsx:95 | the items as a list of strings, in order |
| ChecklistForm.Open | src/components/forms/ChecklistForm.jsx:40-46 | the dialog opens on the given template or the defaults, with no errors and an empty input |
| ChecklistForm.SanitizeElement | src/components/forms/ChecklistForm.jsx:63 | an item is escaped like `sanitizeInput` |
| ChecklistForm.SanitizeElements | src/components/forms/ChecklistForm.jsx:63 | every item is escaped, in place |
| ChecklistForm.ValidateMeaning | src/components/forms/ChecklistForm.jsx:48-54 | the name error exactly for a blank name, the items error exactly for no items, both together |
| ChecklistForm.DefaultsMeaning | src/components/forms/ChecklistForm.jsx:40-44 | a new template is custom, has no items, and fails on both counts |
| ChecklistForm.HandleSubmitMeaning | src/components/forms/ChecklistForm.jsx:56-68 | submit escapes the name and each item, keeping count, order and kind |
| ChecklistForm.AddItemMeaning | src/components/forms/ChecklistForm.jsx:70-81 | blank input changes nothing; other input is appended trimmed and the input is cleared |
| ChecklistForm.AddItemSatisfiesItemsCheck | src/components/forms/ChecklistForm.jsx:70-81 | after an add the items check passes |
| ChecklistForm.RemoveItemMeaning | src/components/forms/ChecklistForm.jsx:83-88 | exactly item i is removed |
| ChecklistForm.RemoveAddedItem | src/components/forms/ChecklistForm.jsx:70-88 | removing the item just added restores the items |
| ChecklistForm.LoadTemplateMeaning | src/components/forms/ChecklistForm.jsx:90-98 | a built-in type sets the type and its 8, 6 or 6 items; any other type changes nothing |
| ChecklistForm.LoadedTemplateHasItems | src/components/forms/ChecklistForm.jsx:90-98 | a loaded template passes the items check |
| JobForm.DefaultsMeaning | src/components/forms/JobForm.jsx:12-21 | a new job is active at 0 % and fails on name and address |
| JobForm.ValidateMeaning | src/components/forms/JobForm.jsx:24-30 | each error exactly when its field is blank, both together |
| JobForm.HandleSubmitMeaning | src/components/forms/JobForm.jsx:32-46 | escapes name, address, client and notes only |
| JobForm.EditReescapesName | src/components/forms/JobForm.jsx:12 | a stored "&amp;" name is saved as "&amp;amp;" |
| JobForm.HandleChangeMeaning | src/components/forms/JobForm.jsx:48-53 | sets one field and clears only its error |
| OrderForm.QuantityRule | src/components/forms/OrderForm.jsx:29 | for a number, the quantity check fails exactly below 1 |
| OrderForm.ValidateMeaning | src/components/forms/OrderForm.jsx:25-32 | three checks, each reported exactly when it fails |
| OrderForm.SetQuantityMeaning | src/components/forms/OrderForm.jsx:96 | NaN or 0 becomes 1; only negatives then fail |
| OrderForm.DefaultsMeaning | src/components/forms/OrderForm.jsx:11-22 | one unit, pending, medium priority |
| OrderForm.DefaultsRejected | src/components/forms/OrderForm.jsx:11-36 | a new order fails on item and job, not on quantity, and is not sent |
| OrderForm.HandleSubmitMeaning | src/components/forms/OrderForm.jsx:34-47 | escapes item, supplier and notes only |
| InventoryForm.ValidateMeaning | src/components/forms/InventoryForm.jsx:22-28 | a blank name and a negative quantity are reported |
| InventoryForm.SetNumberMeaning | src/components/forms/InventoryForm.jsx:118 | NaN input becomes 0 |
| InventoryForm.DefaultsMeaning | src/components/forms/InventoryForm.jsx:11-19 | materials, units, quantity 0, minimum 10 |
| InventoryForm.HandleSubmitMeaning | src/components/forms/InventoryForm.jsx:30-43 | escapes name, location and notes only |
| InventoryForm.ZeroQuantityPassesFormFailsStore | src/components/forms/InventoryForm.jsx:14-25 | quantity 0 passes the form, but the store refuses it and stores nothing |
| InventoryForm.SanitizedNameStaysPresent | src/components/forms/InventoryForm.jsx:30-43 | escaping never blanks a non-blank name |
| TaskForm.ValidateMeaning | src/components/forms/TaskForm.jsx:22-28 | title and job errors, each exactly when its check fails |
| TaskForm.DefaultsMeaning | src/components/forms/TaskForm.jsx:11-19 | pending, medium priority, no due date |
| TaskForm.HandleSubmitMeaning | src/components/forms/TaskForm.jsx:30-43 | escapes title, description and assignee only; sent exactly when valid |
| CrewForm.ValidateMeaning | src/components/forms/CrewForm.jsx:23-28 | valid exactly with a non-blank name |
| CrewForm.DefaultsMeaning | src/components/forms/CrewForm.jsx:11-20 | every field is "" |
| CrewForm.HandleSubmitMeaning | src/components/forms/CrewForm.jsx:30-44 | escapes the eight text fields; `_id` and others pass unchanged |
| ToolForm.ValidateMeaning | src/components/forms/ToolForm.jsx:23-28 | valid exactly with a non-blank name |
| ToolForm.DefaultsMeaning | src/components/forms/ToolForm.jsx:11-20 | power tools, good, unassigned |
| ToolForm.DefaultsShowNone | src/components/forms/ToolForm.jsx:120 | a new tool shows 'none' |
| ToolForm.HandleSubmitMeaning | src/components/forms/ToolForm.jsx:30-39 | escapes name, serial number and notes only |
| ToolForm.ChooseThenShow | src/components/forms/ToolForm.jsx:120-121 | any choice is what is shown next; 'none' is stored as '' |
| ToolForm.ShowThenChoose | src/components/forms/ToolForm.jsx:120-121 | re-choosing what is shown keeps a stored job id and stores '' for none |
| PageActions.SaveOrCreate | src/components/pages/Inventory.jsx:33-41 | update when editing, create otherwise; nothing else changes |
| PageActions.ConfirmDelete | src/components/pages/Inventory.jsx:43-48 | deletes only when confirmed; nothing else changes |
| JobDetailPage.NewestFirstSorts | src/components/pages/JobDetail.jsx:72 | the sorted logs are the same logs, each as often, newest first |
| JobDetailPage.WithJob | src/components/pages/JobDetail.jsx:95 | `{ ...data, jobId }` sets that one field |
| JobDetailPage.HandleSaveForJob | src/components/pages/JobDetail.jsx:91-133 | an edit updates with the data as given; a new task, order or tool gets the page's job id |
| JobDetailPage.TimeEntryFor | src/components/pages/JobDetail.jsx:142-147 | the entry holds the job, the date, the hours and the new log's id |
| JobDetailPage.HandleSaveLog | src/components/pages/JobDetail.jsx:135-152 | an edit updates the log only; a new log is created, and a time entry too exactly when that succeeded and hours are positive |
| JobDetailPage.HandleDeleteJob | src/components/pages/JobDetail.jsx:84-89 | removes only the job: its tasks, orders, logs, tools and entries remain |
| JobDetailPage.ToolsTabMeaning | src/components/pages/JobDetail.jsx:71 | exactly the tools assigned to the job, in order, the same as the card's |
| JobDetailPage.LogsNewestFirst | src/components/pages/JobDetail.jsx:72 | the same logs, later date first |
| JobDetailPage.TaskCountsAddUp | src/components/pages/JobDetail.jsx:272-277 | active plus completed is all tasks |
| JobDetailPage.TotalHoursBounds | src/components/pages/JobDetail.jsx:207 | the total of bounded hours is bounded, missing hours counting 0 |
| JobDetailPage.NewRecordBelongsToJob | src/components/pages/JobDetail.jsx:91-133 | a new record carries the page's job id whatever the form said |
| JobDetailPage.LogBooksOneTimeEntry | src/components/pages/JobDetail.jsx:135-152 | after the log is stored, its entry passes validation and is stored once with the job, date, hours and log id |
| DashboardPage.HandleCreateJob | src/components/pages/Dashboard.jsx:62-65 | the data go to the jobs' create; nothing else changes |
| DashboardPage.FilteredIsSublist | src/components/pages/Dashboard.jsx:78-81 | any filter gives an order-preserving sublist |
| DashboardPage.AllKeepsEveryJob | src/components/pages/Dashboard.jsx:79 | 'all' keeps every job |
| DashboardPage.ActiveFilterMatchesTile | src/components/pages/Dashboard.jsx:80 | 'active' keeps exactly the jobs the Active Jobs tile counts |
| DashboardPage.OtherFilterMatchesStatus | src/components/pages/Dashboard.jsx:78-81 | any other filter keeps exactly the jobs with that status |
| DashboardPage.FilterChoicesMeaning | src/components/pages/Dashboard.jsx:222 | the choices are all, active, on-hold and completed |
| DashboardPage.SearchResultMeaning | src/components/pages/Dashboard.jsx:72-76 | only a job result navigates, to its detail page |
| InventoryPage.HandleSave | src/components/pages/Inventory.jsx:33-41 | update the edited item or create one |
| InventoryPage.HandleDelete | src/components/pages/Inventory.jsx:43-48 | delete after confirmation |
| InventoryPage.FilteredInventoryMeaning | src/components/pages/Inventory.jsx:50-53 | items whose name or category contains the term, in order |
| InventoryPage.IsLowMeaning | src/components/pages/Inventory.jsx:55 | low exactly when the quantity is at most the minimum, 0 or none meaning 10 |
| InventoryPage.NoQuantityNeverLow | src/components/pages/Inventory.jsx:55 | no quantity is never low |
| InventoryPage.PageRuleDiffersFromStore | src/components/pages/Inventory.jsx:55 | the page's rule and the store's `getLowStock` disagree both ways |
| InventoryPage.LowStockAlertMeaning | src/components/pages/Inventory.jsx:93-98 | the alert shows exactly when some item is low, with their count |
| CrewPage.RoleColourKey | src/components/pages/Crew.jsx:147 | the colour is always one of the known roles |
| CrewPage.HandleSave | src/components/pages/Crew.jsx:33-41 | update the edited member or create one |
| CrewPage.HandleDelete | src/components/pages/Crew.jsx:43-48 | delete after confirmation |
| CrewPage.FilteredCrewMeaning | src/components/pages/Crew.jsx:50-54 | members whose name or role contains the term, in order |
| CrewPage.EmptyTermKeepsNamedMembers | src/components/pages/Crew.jsx:50-54 | an empty term keeps every member with a text name or role |
| CrewPage.RoleColourMeaning | src/components/pages/Crew.jsx:56-67 | a known role has its colour; anything else falls back to 'other' |
| CrewPage.RoleLabelMeaning | src/components/pages/Crew.jsx:148 | a falsy role reads 'Unassigned'; a text role is shown as it is |
| SafetyChecklistPage.Spread | src/components/pages/SafetyChecklist.jsx:52 | spreading an array copies its elements; a non-iterable throws |
| SafetyChecklistPage.HandleDuplicate | src/components/pages/SafetyChecklist.jsx:48-56 | the copy is created; nothing is written when building it throws |
| SafetyChecklistPage.HandleSave | src/components/pages/SafetyChecklist.jsx:31-39 | update the edited template or create one |
| SafetyChecklistPage.HandleDelete | src/components/pages/SafetyChecklist.jsx:41-46 | delete after confirmation |
| SafetyChecklistPage.DuplicateMeaning | src/components/pages/SafetyChecklist.jsx:48-56 | the copy has name + " (Copy)", the type and the items, and no other field |
| SafetyChecklistPage.DuplicateIsStored | src/components/pages/SafetyChecklist.jsx:48-56 | a copy under an unused id is always stored |
| SafetyChecklistPage.DuplicateLeavesOriginal | src/components/pages/SafetyChecklist.jsx:52 | the original and every other template are unchanged |
| SafetyChecklistPage.PreviewMeaning | src/components/pages/SafetyChecklist.jsx:155-165 | the first min(6, n) items, plus a "+(n-6) more" line exactly when n > 6 |
| SafetyChecklistPage.NoItemsPreview | src/components/pages/SafetyChecklist.jsx:155-165 | no items: 0 items and no preview |
| GlobalSearchView.PerformSearchMeaning | src/components/search/GlobalSearch.jsx:35-47 | terms under 2 characters clear the results without searching; others search and show what was found |
| GlobalSearchView.TotalResultsMeaning | src/components/search/GlobalSearch.jsx:60-63 | 0 without results; 0 with results exactly when every list is empty |
| GlobalSearchView.TotalBoundedByCollections | src/components/search/GlobalSearch.jsx:60-63 | the total never exceeds the documents in the seven collections |
| GlobalSearchView.ItemTitleMeaning | src/components/search/GlobalSearch.jsx:65-76 | name, title or item by category; "Log: <date>" for logs; "Unknown" otherwise |
| GlobalSearchView.ExcerptBounded | src/components/search/GlobalSearch.jsx:81-82 | log and task subtitles are at most 50 characters |
| GlobalSearchView.ResultClickResets | src/components/search/GlobalSearch.jsx:53-58 | a click forwards once, then closes and resets the query and results |
| ProgressChart.HoursSeries | src/components/charts/ProgressChart.jsx:36-57 | fourteen bars, one per day up to today |
| ProgressChart.EmptyDayIsZero | src/components/charts/ProgressChart.jsx:46-51 | a day with no entry has an empty bar |
| ProgressChart.DayWithinTotal | src/components/charts/ProgressChart.jsx:46-51 | a day's bar never exceeds the total hours |
| ProgressChart.TwoDaysAddUp | src/components/charts/ProgressChart.jsx:46-51 | two days' bars add up to the hours of entries dated either day |
| ProgressChart.ProgressLabelsMeaning | src/components/charts/ProgressChart.jsx:61-64 | at most 8 jobs, in order, labelled by up to 15 characters |
| ProgressChart.LaterJobsIgnored | src/components/charts/ProgressChart.jsx:61-64 | jobs after the eighth never change the chart |
| ProgressChart.AverageIsRoundedMean | src/components/charts/ProgressChart.jsx:195 | the average is within half a point of the mean |
| ProgressChart.AverageInPercentRange | src/components/charts/ProgressChart.jsx:195 | within 0..100 when each progress is; 0 without jobs |
| ProgressChart.StatusCountsMeaning | src/components/charts/ProgressChart.jsx:79-84 | the four exact counts sum to at most the tasks, and to all of them when every status is known |
| ProgressChart.OtherStatusUncounted | src/components/charts/ProgressChart.jsx:79-84 | any other status is counted nowhere |
| ProgressChart.HighPriorityAddsUp | src/components/charts/ProgressChart.jsx:207 | the count is the urgent tasks plus the high ones |

## Left out

- PouchDB itself is only the map's put, get and remove. Revision tokens (`_rev`) are dropped. So is the `databases` export with `setupSync` replication (database.jsx:276-296), which is network code.
- Fresh ids and timestamps are parameters. A caller that reuses a fresh id gets the conflict the model returns.
- Floating point is not modelled. Hours, progress and quantities are integers. `toFixed`, fractional hours and NaN arithmetic are out of scope.
- JavaScript's mixed-type comparisons (`"3" <= 10`) are not modelled: a string quantity is never low stock. A sum over string hours, which concatenates, is counted as 0.
- Date parsing, time zones, `differenceInDays` and the week start are out of scope. Dates are supplied instants. An unparseable date has no defined place in the source's sorts, because their comparators return NaN for it (JobCard.jsx:49, JobDetail.jsx:72). The model fixes one order in each place: JobCard.Before puts an unparseable due date after every parseable one, and JobDetailPage.LogInstant reads an unparseable log date as instant 0.
- `toLowerCase` is modelled on ASCII letters only, and string lengths count characters, not UTF-16 units.
- Rendering, Tailwind classes, colour maps beyond the fallback rules, chart.js options, dialogs, the lodash debounce, `window.location` / `history` navigation, and the real `localStorage` are left out. `confirm()` is a boolean parameter.
- The photo upload through `FileReader` (DailyLogForm.jsx:45-61) is modelled as adding a given data URL, name and timestamp.
- Object identity is not modelled: a spread copy and its original are values.
- Prototype keys such as `roleColors["constructor"]` and `defaultTemplates["toString"]` are not modelled. Neither is the stringification of non-string role keys.
- A rejected `globalSearch` (a field that throws) is modelled as no new results, with the old results kept. The loading spinner is not modelled.
- Calendar, reports, settings page, splash, authentication, 3D logo and theme files are not part of this model.
- Documents.RequiredFields: the contract states only that each collection checks one to three fields. The nine field lists are its definition, and the create lemmas use them.
- FormRules.SetMember: spreading a string or an array item would add its index keys; the model gives only the new key there. The forms' items are objects.
- SafetyChecklistPage.PreviewItems: items stored as a string show no preview, because `slice(0, 6).map` of a string throws in the page.
- ProgressChart.HoursSeries: the day label is a supplied formatting function `dayText`.
- The settings behaviour follows the code: an update with no stored document writes one without the defaults, unlike the defaults `get` shows.
- FormRules.TextLike: form validators require the checked text fields to be absent, null or strings. A number there would make `trim()` throw in the browser.

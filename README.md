# Weather reports: a Dafny model of the report store, the weather gateway and the front-end state

The application lets a signed-in user look up the weather for a place, save a snapshot of it
as a *report*, and later list, filter, sort, delete and compare saved reports. This project
models the parts of it whose behaviour can be stated precisely and proves what they promise:

- **Report store** (`ReportsService`): the report collection as a map from id to report, held by
  the class `ReportStore`; create, the owner-scoped and location-filtered listing (newest first),
  lookup by id and by a list of ids, the unchecked delete and the owner-checked delete with its
  NotFound and Forbidden answers.
- **Report routes** (`ReportsController`): the guard that refuses anonymous requests, the
  validation of the create body, the comma split of `compare/:ids`, and the delegation of each
  route to the store. The DELETE route uses the unchecked delete.
- **Create-report validation** (`CreateReportDto`): the eight required properties and their rules.
- **Weather gateway** (`WeatherService`): `formatWeatherData`, JavaScript `Math.round`, the
  cloud-cover default, the mapping of upstream errors to HTTP exceptions, the query-length guard
  and the location suggestions. The provider's answers are parameters.
- **Report history page** (`WeatherReportPage`): the at-most-two selection, the compare button,
  and the sortable table (class `ReportHistory`).
- **Home page** (`HomePage`): the report built from the shown weather, the "report generated"
  mark, and the blank-search fallback to geolocation (class `Home`).
- **Forecast grouping** (`ForecastGrouping`): `groupForecastByDay`, with the day-label function
  as a parameter.
- `JsString` holds the JavaScript string behaviour these rely on (case folding, substring search,
  `split`/`join`, string `<`, `trim`); `Wrappers` holds `Option` and `Result`.

The model follows the code where its behaviour differs from what the API's design suggests:

- The reports controller carries the JWT guard at class level, so every report route, including
  get-by-id and compare, answers 401 to an anonymous caller.
- The DELETE route calls `remove`, not `removeByUser`, so it never answers Forbidden.
- The suggestion cap of five is only the `limit` parameter sent to the provider; the service
  passes on whatever list comes back.
- A failing forecast call does not come back as the provider's status (see Findings).
- `reports.schema.ts` declares no `user` property, so as written the owner that `create` passes
  is dropped when the report is stored (see Findings). The rest of the model uses the corrected
  `create`, which stores the owner.
- `removeByUser` calls `report.user.toString()`, which throws on a report without an owner; the
  model answers `OwnerMissing` (an HTTP 500) there. As written, every stored report is such a
  report; with the corrected `create`, reports created through the routes have an owner.

## Model

| member | source | states |
|---|---|---|
| `JsString.Utf16Length` | apps/backend/src/weather/weather.service.ts:116 | `length` counts one unit per character of the Basic Multilingual Plane and two per other character, so it lies between the character count and twice it, and equals the character count iff every character is in that plane |
| `JsString.Split` | apps/backend/src/reports/reports.controller.ts:43 | `split(',')` gives at least one piece, and no piece contains the separator |
| `JsString.Join` | apps/frontend/src/api/reports.ts:31 | `join(',')` of no pieces is empty; otherwise the result starts with the first piece and ends with the last |
| `JsString.Contains` | apps/backend/src/reports/reports.service.ts:34 | the substring test is true exactly when the pattern occurs at some position of the text |
| `JsString.JoinSplit` | apps/backend/src/reports/reports.controller.ts:43 | joining the pieces of `split(',')` with ',' gives back the original segment, for every segment |
| `JsString.SplitJoin` | apps/frontend/src/api/reports.ts:31 | splitting what `join(',')` built gives back the list, when it is non-empty and no id contains ',' |
| `JsString.LexLess` | apps/frontend/src/components/pages/WeatherReportPage.tsx:73-74 | string `<` holds exactly when the left string is a proper prefix of the right one, or at the first position where they differ its character code is smaller |
| `JsString.LexTrichotomy` | apps/frontend/src/components/pages/WeatherReportPage.tsx:73-74 | string `<` is irreflexive and asymmetric, and of two different strings one is smaller |
| `JsString.LexTransitive` | apps/frontend/src/components/pages/WeatherReportPage.tsx:73-74 | string `<` is transitive |
| `JsString.Trim` | apps/frontend/src/components/pages/Homepage.tsx:27 | the result of `trim()` is empty or starts and ends with a character that is not white space |
| `JsString.TrimIsSlice` | apps/frontend/src/components/pages/Homepage.tsx:27 | the result of `trim()` is a contiguous part of the input with only white space cut off before and after it |
| `JsString.TrimEmptyIffBlank` | apps/frontend/src/components/pages/Homepage.tsx:27 | `trim()` gives the empty string exactly when every character is white space or a line terminator |
| `CreateReportDto.Validate` | apps/backend/src/reports/dto/create-report.dto.ts:3-35 | a body passes iff location, description and icon are non-empty strings and the five others are numbers; the fields are then the body's values; a refusal names exactly the failing properties, each once, in declaration order |
| `CreateReportDto.Violations` | apps/backend/src/reports/dto/create-report.dto.ts:3-35 | a property is listed exactly when the body breaks its rule; of two listed names the earlier is declared earlier |
| `CreateReportDto.ValidateToBody` | apps/backend/src/reports/dto/create-report.dto.ts:3-35 | the JSON of a report passes validation iff its three strings are non-empty, and validation then returns the same fields |
| `ReportsService.Listed` | apps/backend/src/reports/reports.service.ts:31-35 | a listed report that has an owner belongs to the caller, and with a location filter the report's location is at least as long as the filter (it contains it, ignoring case) |
| `ReportsService.InsertNewestFirst` | apps/backend/src/reports/reports.service.ts:37 | inserting into a newest-first list keeps it newest first, adds exactly that report and keeps ids distinct |
| `ReportsService.OwnerCheck` | apps/backend/src/reports/reports.service.ts:52-61 | NotFound iff no such id; Forbidden iff another user owns it; OwnerMissing iff it has no owner; otherwise the stored report |
| `ReportsService.ReportStore.constructor` | apps/backend/src/reports/reports.service.ts:15-17 | the store starts empty |
| `ReportsService.ReportStore.Create` | apps/backend/src/reports/reports.service.ts:19-28 | adds exactly one report, under the new id, with the DTO fields and the caller's `sub` as owner; nothing else changes |
| `ReportsService.ReportStore.CreateAsWritten` | apps/backend/src/reports/reports.service.ts:19-28 | as written: adds exactly one report under the new id with the DTO fields and no owner, because the schema has no `user` path |
| `ReportsService.OwnerlessTable` | apps/backend/src/reports/reports.service.ts:30-38 | on a table of owner-less reports an authenticated caller's listing matches nothing, and the owner-checked delete answers OwnerMissing for an existing id and NotFound otherwise |
| `ReportsService.OwnerLostAsWritten` | apps/backend/src/reports/reports.service.ts:19-64 | as written: the caller's listing right after their create is empty, and their owner-checked delete of the new report fails with OwnerMissing |
| `ReportsService.OwnerKeptAsIntended` | apps/backend/src/reports/reports.service.ts:19-64 | with the owner stored: the caller's listing right after their create is exactly the new report, and their owner-checked delete of it succeeds |
| `ReportsService.ReportStore.FindAll` | apps/backend/src/reports/reports.service.ts:30-38 | returns exactly the caller's stored reports matching the location filter (not filtered by location when it is absent or empty), each once, newest first |
| `ReportsService.ReportStore.FindOne` | apps/backend/src/reports/reports.service.ts:40-42 | returns the report stored under the id, or nothing when there is none |
| `ReportsService.ReportStore.FindByIds` | apps/backend/src/reports/reports.service.ts:44-46 | returns exactly the stored reports whose id is listed, each once, never more than ids given |
| `ReportsService.ReportStore.Remove` | apps/backend/src/reports/reports.service.ts:48-50 | deletes the report under the id whoever owns it, returns it (or nothing), leaves every other report |
| `ReportsService.ReportStore.RemoveByUser` | apps/backend/src/reports/reports.service.ts:52-64 | answers as the owner check says; deletes only on success and otherwise leaves the collection as it was |
| `ReportsController.ParseIds` | apps/backend/src/reports/reports.controller.ts:41-45 | the split of the segment is never empty, no piece contains ',', and joining the pieces gives the segment back |
| `ReportsController.ParseJoinedIds` | apps/backend/src/reports/reports.controller.ts:41-45 | the ids the front end joined reach the store as the same list, in the same order |
| `ReportsController.Create` | apps/backend/src/reports/reports.controller.ts:18-28 | anonymous: 401; invalid body: 400 with the failing properties; otherwise the new report is owned by the caller; the store changes only on success |
| `ReportsController.FindAll` | apps/backend/src/reports/reports.controller.ts:30-34 | 401 exactly for anonymous callers; any authenticated caller gets an answer: exactly the caller's own stored reports matching the location filter, each once, newest first |
| `ReportsController.FindOne` | apps/backend/src/reports/reports.controller.ts:36-39 | 401 exactly for anonymous callers; any authenticated caller gets the report under the id whoever owns it, or nothing when there is none |
| `ReportsController.FindByIds` | apps/backend/src/reports/reports.controller.ts:41-45 | 401 exactly for anonymous callers; any authenticated caller gets exactly the stored reports whose ids the split segment lists, each once, never more than the ids listed |
| `ReportsController.Remove` | apps/backend/src/reports/reports.controller.ts:47-51 | 401 exactly for anonymous callers; any authenticated caller deletes any existing report; never Forbidden |
| `ReportsController.RemoveOthersReport` | apps/backend/src/reports/reports.controller.ts:47-51 | for a report another user owns, the owner check would answer Forbidden, yet the DELETE route deletes it and returns it |
| `WeatherService.JsRound` | apps/backend/src/weather/weather.service.ts:160 | `Math.round` gives the integer within half of x, halves rounded up |
| `WeatherService.JsRoundUnique` | apps/backend/src/weather/weather.service.ts:166 | only one integer lies within that half-open distance, so the rounding is determined |
| `WeatherService.CloudCover` | apps/backend/src/weather/weather.service.ts:168 | `clouds.all` when present, 0 when the block or the value is missing |
| `WeatherService.FormatWeatherData` | apps/backend/src/weather/weather.service.ts:156-177 | date is dt*1000; temp and visibility/1000 are rounded; description and icon from the first condition; the rest copied; location is "name, country"; forecast passed through; an empty condition list ends in a 500 |
| `WeatherService.SampleNormalisation` | apps/backend/src/weather/weather.service.ts:156-177 | 21.7 °C, 8000 m and no clouds give 22, 8 and 0 |
| `WeatherService.MapUpstreamError` | apps/backend/src/weather/weather.service.ts:59-67 | an HTTP failure becomes an exception with the provider's message and status, defaulting to the fallback text and 400; any other error is rethrown unchanged |
| `WeatherService.GetWeatherAsWritten` | apps/backend/src/weather/weather.service.ts:26-69 | a failing first call is mapped; a failing forecast call ends in a 500; otherwise the formatted view |
| `WeatherService.GetWeather` | apps/backend/src/weather/weather.service.ts:26-69 | either failing call is mapped to the provider's status and message; otherwise the formatted view |
| `WeatherService.ForecastFailureLosesStatus` | apps/backend/src/weather/weather.service.ts:40-67 | the two versions differ exactly when the first call succeeds and the forecast call fails; a client sees the difference only for an HTTP failure, since any other failure is a 500 either way |
| `WeatherService.ForecastNotFoundExample` | apps/backend/src/weather/weather.service.ts:40-67 | a forecast 404 "city not found" gives a 500 as written and the provider's 404 as intended |
| `WeatherService.SuggestionRequest` | apps/backend/src/weather/weather.service.ts:115-129 | a missing query or one whose `length` is below 2 UTF-16 code units is refused with 400 "Query too short"; otherwise the request asks for at most 5 results |
| `WeatherService.AstralQueryPassesGuard` | apps/backend/src/weather/weather.service.ts:116 | a one-character query outside the Basic Multilingual Plane has `length` 2 and is sent to the provider |
| `WeatherService.DisplayName` | apps/backend/src/weather/weather.service.ts:138-140 | "name, state, country" when state is a non-empty string, else "name, country" |
| `WeatherService.ToSuggestion` | apps/backend/src/weather/weather.service.ts:132-141 | a suggestion copies the provider's name, country, state and coordinates, and its display name starts with "name, " and ends with ", country" |
| `WeatherService.GetLocationSuggestions` | apps/backend/src/weather/weather.service.ts:115-154 | short query refused; provider failure mapped; otherwise one suggestion per item, same length and order, fields copied and displayName added |
| `WeatherService.ShortQueryNeverReachesUpstream` | apps/backend/src/weather/weather.service.ts:116-120 | a refused query gets the same answer whatever the provider would have said |
| `WeatherReportPage.Without` | apps/frontend/src/components/pages/WeatherReportPage.tsx:85 | the filter keeps exactly the other ids and never grows the list |
| `WeatherReportPage.ToggleSelection` | apps/frontend/src/components/pages/WeatherReportPage.tsx:81-96 | a selected id is removed; a new id with two selected gives `[prev[1], id]`; otherwise it is appended |
| `WeatherReportPage.ToggleKeepsBounded` | apps/frontend/src/components/pages/WeatherReportPage.tsx:84-94 | a click keeps at most two distinct ids; the id is selected afterwards iff it was not before; unselecting keeps the other; a third id drops the oldest |
| `WeatherReportPage.ReplayKeepsBounded` | apps/frontend/src/components/pages/WeatherReportPage.tsx:81-95 | any series of clicks from a bounded selection stays bounded |
| `WeatherReportPage.ReplayFromEmptyBounded` | apps/frontend/src/components/pages/WeatherReportPage.tsx:31 | from the initial empty selection, no series of clicks selects more than two ids or one id twice |
| `WeatherReportPage.CompareTarget` | apps/frontend/src/components/pages/WeatherReportPage.tsx:98-103 | a target exists iff exactly two ids are selected, and it names them in selection order |
| `WeatherReportPage.NextDirection` | apps/frontend/src/components/pages/WeatherReportPage.tsx:59-70 | descending exactly when the same column is currently ascending |
| `WeatherReportPage.InOrder` | apps/frontend/src/components/pages/WeatherReportPage.tsx:72-76 | rows with equal values in the column may stand in either order; on a numeric column a row may stand first iff its value is not larger (ascending) or not smaller (descending) |
| `WeatherReportPage.InOrderTotal` | apps/frontend/src/components/pages/WeatherReportPage.tsx:72-76 | of two rows, one may always stand before the other |
| `WeatherReportPage.InOrderTransitive` | apps/frontend/src/components/pages/WeatherReportPage.tsx:72-76 | "may stand before" is transitive for every column and direction |
| `WeatherReportPage.Insert` | apps/frontend/src/components/pages/WeatherReportPage.tsx:72-76 | inserting a row into sorted rows keeps them sorted and adds exactly that row |
| `WeatherReportPage.SortRows` | apps/frontend/src/components/pages/WeatherReportPage.tsx:72-78 | the sorted rows are a permutation of the rows, ordered by the column in the direction |
| `WeatherReportPage.ReportHistory.constructor` | apps/frontend/src/components/pages/WeatherReportPage.tsx:30-36 | no rows, no selection, no sort |
| `WeatherReportPage.ReportHistory.ReportsLoaded` | apps/frontend/src/components/pages/WeatherReportPage.tsx:38-45 | fetched reports replace the rows; selection and sort stay |
| `WeatherReportPage.ReportHistory.HandleSort` | apps/frontend/src/components/pages/WeatherReportPage.tsx:59-79 | the new sort is the column with the toggled direction; the rows become a permutation of the old rows in that order; the selection stays |
| `WeatherReportPage.ReportHistory.HandleReportSelection` | apps/frontend/src/components/pages/WeatherReportPage.tsx:81-96 | the selection becomes the toggle of the old one and stays bounded; rows and sort stay |
| `WeatherReportPage.ReportHistory.HandleCompare` | apps/frontend/src/components/pages/WeatherReportPage.tsx:98-103 | navigates only with exactly two selected, to the first then the second |
| `HomePage.OrZero` | apps/frontend/src/components/pages/Homepage.tsx:53 | a present value is kept, a missing one becomes 0 |
| `HomePage.ReportFromView` | apps/frontend/src/components/pages/Homepage.tsx:49-58 | location, temperature, humidity, description and icon are copied; timestamp is the clock; pressure and cloud cover default to 0 |
| `HomePage.SavedReportPassesValidation` | apps/frontend/src/components/pages/Homepage.tsx:49-62 | the back end accepts the built report iff location, description and icon are non-empty, and stores it as built |
| `HomePage.Home.constructor` | apps/frontend/src/components/pages/Homepage.tsx:16-19 | no data, nothing loading, no report generated |
| `HomePage.Home.SetWeatherData` | apps/frontend/src/components/pages/Homepage.tsx:22-24 | new data replaces the old and clears the "report generated" mark |
| `HomePage.Home.HandleSearch` | apps/frontend/src/components/pages/Homepage.tsx:26-39 | a blank entry starts geolocation and changes nothing else; another entry is looked up by name and its result (none on failure) shown, and the "report generated" mark is cleared unless no data was shown before or after |
| `HomePage.Home.SaveWeatherReport` | apps/frontend/src/components/pages/Homepage.tsx:41-63 | without data: an error notice and no report; with data: the built report is sent, marked generated, and a success notice shown |
| `ForecastGrouping.GroupForecastByDay` | apps/frontend/src/lib/utils.ts:34-48 | one group per day that occurs, each holding exactly that day's entries in input order; empty input gives no groups |
| `ForecastGrouping.ItemsOnMembers` | apps/frontend/src/lib/utils.ts:39-44 | an entry is in a day's group iff it is an input entry whose `formatDay(dt)` is that day |
| `ForecastGrouping.NoEmptyGroups` | apps/frontend/src/lib/utils.ts:41-44 | every group holds at least one entry |
| `ForecastGrouping.GroupedTotal` | apps/frontend/src/lib/utils.ts:34-48 | the groups hold as many entries in all as the input has |

## Findings

| source | as written | input that shows it | evidently intended | confidence | as-written member | corrected member |
|---|---|---|---|---|---|---|
| apps/backend/src/reports/reports.service.ts:23-26 | `create` stores `{...dto, user: user?.sub}`, but `reports.schema.ts` declares no `user` path, and the database layer drops undeclared paths in its default strict mode; so no report has an owner, `findAll`'s `{user: sub}` filter matches nothing (if undeclared filter paths are also dropped, it instead lists every user's reports), and `removeByUser` fails on `report.user.toString()` | an authenticated user creates a report and then lists their reports | the owner is stored with the report, so the user's listing holds it and the user may delete it | medium; not executed | `ReportsService.ReportStore.CreateAsWritten` | `ReportsService.ReportStore.Create` |
| apps/backend/src/weather/weather.service.ts:40-67 | the forecast request runs inside the async `map` callback; its failure rejects the emitted promise, which `catchError` never sees, so the request ends in a 500 (the same at lines 83-111 for coordinates) | the current-weather call succeeds and the forecast call answers 404 "city not found" | an `HttpException` with the provider's status and message, as for the first call | medium; not executed | `WeatherService.GetWeatherAsWritten` | `WeatherService.GetWeather` |

## Left out

- HTTP and the database: the two upstream calls, rxjs and axios are replaced by their results, given as parameters. The weather controller only delegates and is not modelled.
- Authentication: token signing and checking, password hashing and login are not modelled. The caller is an optional `VerifyUser`, and `None` stands for a request the guard refuses.
- Database ids: the database's id generation is replaced by a new, unused id given as a parameter. Ids are plain strings, and casting them to ObjectIds is not modelled.
- Database order: the order of reports with equal timestamps and the order of `findByIds` results are left open, as the database leaves them.
- Database timestamps: the `createdAt`/`updatedAt` fields that the framework adds are not modelled.
- ReportsService.OwnerLostAsWritten: models the as-written listing as matching only reports owned by the caller, so it lists nothing. If the database is set to drop undeclared paths from filters too, the listing would be every user's reports; that case is not modelled.
- ReportsService.Listed: models `$regex` with option `i` as a literal substring match with ASCII-only case folding, so it agrees with the database only for patterns without regular-expression metacharacters.
- ReportsController.Create: the 400 answer with the failing properties is taken from the design, not from the code. The controller imports the DTO with `import type`, which erases the class from the parameter metadata that a validation pipe reads, and `app.module.ts` registers no pipe. main.ts is not part of this model. As written, an invalid body probably reaches `create` unchecked, and the database schema's required paths and casting decide its fate; that behaviour is not modelled.
- Numbers: JavaScript numbers are modelled as `real`, so IEEE rounding, NaN and Infinity are left out. String `<` compares characters, which matches UTF-16 code units for characters in the Basic Multilingual Plane. The query-length guard counts UTF-16 code units (`JsString.Utf16Length`).
- WeatherService.MapUpstreamError: does not model an error response without a body (`error.response.data` undefined), which would throw inside the handler.
- WeatherReportPage.SortRows: does not state that rows with equal values keep their previous order, although `Array.prototype.sort` is stable.
- WeatherReportPage.ReportHistory.HandleSort: sorts through `SortRows`, so it too leaves the order of rows with equal values open.
- Browser APIs and locale data: `formatDay` is a parameter, and `formatDate`/`formatTime` are left out. Geolocation is modelled only up to setting `geoLoading`, because the position callback is a browser API.
- Timers and the clock: `debounce` is left out, and `Date.now()` is a parameter.
- HomePage.Home.SetWeatherData: React compares effect dependencies by object identity. The model treats every non-null data value as new, as a fresh fetch result always is.
- Front-end API wrappers: these are left out. `createReport` is fire-and-forget, so the model records the report it sends and not the later network outcome.
- Rendering: notices are kept as a list, navigation is a returned path, and the comparison page, search bar and icons are not modelled.

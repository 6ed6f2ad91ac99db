# front-translite route administration, modelled in Dafny

This project models the browser front end of a small delivery-route manager.
Administrators see routes on a Monday-first month calendar. They can search
the routes and switch between pending and completed ones. They create routes
from a load point and a list of unloading points, and they manage the
employees and vehicles. Drivers step through the stops of their route.

The model covers:
- the calendar view-model of `src/pages/Admin.tsx`: month grid, completion
  rule, search filter, index of routes by day, month and day cursors, and
  the list updates after a deletion;
- the form logic of the vehicles, employees and new-route pages;
- the query, header and error rules of the HTTP helpers;
- the driver's stop updates;
- the quick route form;
- the session context.

Shared modules:

| file | contents |
|---|---|
| `wrappers.dfy` | `Option` and `Result` |
| `seqs.dfy` | order-keeping `Filter` and its lemmas |
| `text.dfy` | JavaScript's white space, ASCII case mapping, `includes`, `trim`, `split` on white space and on a character, `join`, and decimal rendering of integers |
| `civil.dfy` | proleptic Gregorian dates with JavaScript `Date` normalisation (`new Date(y, m, d)` for years outside 0..99, `setDate`, `setMonth` roll out-of-range fields into the neighbouring months), an epoch-day count and `getDay` |

One module per source file:

| file | source |
|---|---|
| `admin.dfy` | `src/pages/Admin.tsx` |
| `vehicles.dfy` | `src/pages/Vehicles.tsx` |
| `newroute.dfy` | `src/pages/NewRoute.tsx` |
| `employees.dfy` | `src/pages/Employees.tsx` |
| `api.dfy` | `src/lib/api.ts` |
| `driver.dfy` | `src/pages/Driver.jsx` |
| `newrouteform.dfy` | `src/components/admin/NewRouteForm.tsx` |
| `auth.dfy` | `src/context/AuthContext.tsx` |

How the source's forms are carried over:
- State that a page holds in React state slots and updates in handlers is a
  class. Its fields are those slots, and each handler is a method with a
  `modifies` clause.
- Loops that build a value step by step are methods with loop invariants,
  proved equal to a specification function. These are the three loops of
  `getMonthGrid`, the `Map` filled by `routesByDay`, and the stop list
  pushed by `createRoute`.
- Expressions over filter, map and join are functions.

Times are integer milliseconds. The clock, the host's mapping from a
timestamp to its local calendar day, random ids, ISO rendering,
`encodeURIComponent` and JSON serialisation are parameters. A server
response is given by its outcome: `serverOk`, the reloaded list, or the
insert's error.

## Model

| member | source | states |
|---|---|---|
| Civil.DaysInMonth | src/pages/Admin.tsx:62 | the Gregorian month length lies in 28..31 |
| Civil.Roll | src/pages/Admin.tsx:66 | a day number outside the month rolls into the neighbouring months and always yields a real date |
| Civil.MakeDate | src/pages/Admin.tsx:53-54 | `new Date(y, monthIndex, d)` always yields a real date; in-range month and day are kept as given, and a day of at most 28 is kept in every month |
| Civil.SetDate | src/pages/Admin.tsx:66 | `setDate` always yields a real date and, for a day that exists in the month, changes only the day |
| Civil.SetMonth | src/pages/Admin.tsx:151-152 | `setMonth` always yields a real date and, when the kept day exists in the target month of the same year, moves to exactly that date |
| Civil.NextDay | src/pages/Admin.tsx:74-77 | the next calendar day: the day field advances within the month, and after the last day the first of the following month comes |
| Civil.SetDateNext | src/pages/Admin.tsx:76 | `setDate(getDate() + 1)` gives the next calendar day, across month and year ends |
| Civil.RollBack | src/pages/Admin.tsx:66 | day `1 - k` of a month is the `k`-th last day of the previous month |
| Civil.LastDayIdiom | src/pages/Admin.tsx:54 | day 0 of the next month is the last day of this month |
| Civil.LeapYearsStep | src/pages/Admin.tsx:61 | the leap-year count grows by one exactly after a leap year |
| Civil.EpochDayNext | src/pages/Admin.tsx:61 | the day count rises by exactly one from each day to the next |
| Civil.Weekday | src/pages/Admin.tsx:61 | `getDay` lies in 0..6 |
| Civil.WeekdayNext | src/pages/Admin.tsx:61 | consecutive days have consecutive weekdays |
| Admin.StartOfMonth | src/pages/Admin.tsx:53 | the result is day 1 of the date's month |
| Admin.EndOfMonth | src/pages/Admin.tsx:54 | the result is the last day of the date's month |
| Admin.SameDay | src/pages/Admin.tsx:55-57 | true exactly when the two dates are the same calendar day |
| Admin.LeadingDays | src/pages/Admin.tsx:61 | the number of filler cells before day 1 lies in 0..6 |
| Admin.GridDate | src/pages/Admin.tsx:58-80 | every cell of the grid holds a real calendar date |
| Admin.MonthGrid | src/pages/Admin.tsx:58-80 | the grid always has exactly 42 cells |
| Admin.GetMonthGrid | src/pages/Admin.tsx:58-80 | the three push loops build exactly `MonthGrid(year, month)`, which depends only on the cursor's year and month and not on its day |
| Admin.GridStep | src/pages/Admin.tsx:73-77 | each cell holds the calendar day after the previous cell's day |
| Admin.GridEpochDay | src/pages/Admin.tsx:64-78 | the cells run consecutively from `LeadingDays` days before the 1st |
| Admin.GridWeekday | src/pages/Admin.tsx:61-68 | cell `i` falls on weekday `(i + 1) % 7`, so every column is one weekday and cell 0 is always a Monday |
| Admin.GridMonthRun | src/pages/Admin.tsx:69-72 | a cell is in-month exactly when its date is in the cursor's month; day k sits at index `LeadingDays + k - 1` with `inMonth` true; the last cell is never in-month |
| Admin.March2024Grid | src/pages/Admin.tsx:58-80 | March 2024 starts on a Friday; its grid runs from Monday 26 February to Sunday 7 April, with 1 March in cell 4 |
| Admin.IsRouteCompleted | src/pages/Admin.tsx:121-127 | a non-empty status decides by its upper-cased value being "COMPLETED"; otherwise a non-empty completion mark means completed; otherwise completed exactly when more than two hours have passed since the start |
| Admin.StatusDecidesAlone | src/pages/Admin.tsx:123 | a non-empty status decides alone: start time, completion mark and clock do not matter |
| Admin.StatusCaseInsensitive | src/pages/Admin.tsx:123 | the status comparison ignores letter case |
| Admin.CompletedAtDecides | src/pages/Admin.tsx:125 | without a status, a completion mark means completed |
| Admin.TimeRule | src/pages/Admin.tsx:126 | otherwise a route is not completed at exactly two hours after its start, is completed one millisecond later, and stays completed as time passes |
| Admin.ThreeHoursLater | src/pages/Admin.tsx:121-127 | a route that started three hours ago, with neither status nor completion mark, is completed |
| Admin.SearchText | src/pages/Admin.tsx:131 | the searched text has the length of code, driver and vehicle plus two, with a space after the code and after the driver |
| Admin.MatchesSearch | src/pages/Admin.tsx:131-132 | an empty query matches every route |
| Admin.ByText | src/pages/Admin.tsx:130-132 | the routes kept are exactly those whose text contains the lower-cased query |
| Admin.Filtered | src/pages/Admin.tsx:129-134 | a route is kept exactly when its lower-cased code, driver and vehicle contain the lower-cased search and its completion equals the toggle |
| Admin.FilteredKeepsOrder | src/pages/Admin.tsx:129-134 | the filtered list is a subsequence of the routes (their order is kept) |
| Admin.EmptySearchMatchesAll | src/pages/Admin.tsx:130-132 | an empty search keeps every route |
| Admin.SearchTextParts | src/pages/Admin.tsx:131 | the searched text is the three lower-cased fields separated by spaces |
| Admin.FieldQueryMatches | src/pages/Admin.tsx:130-132 | a query found, ignoring case, in the code, the driver or the vehicle matches the route |
| Admin.TogglePartitions | src/pages/Admin.tsx:133 | the lists for the two toggle values split the text-matched routes: sizes and multisets add up |
| Admin.RoutesByDay | src/pages/Admin.tsx:136-144 | the loop maps exactly the start days of the filtered routes, each to that day's routes in filtered order |
| Admin.OneBucketPerRoute | src/pages/Admin.tsx:136-144 | each route is in the bucket of its own start day and in no other |
| Admin.DayKeysAreDays | src/pages/Admin.tsx:137-142 | the map's keys, in insertion order, are distinct and are exactly the start days |
| Admin.BucketsAddUp | src/pages/Admin.tsx:136-144 | the bucket sizes sum to the number of filtered routes |
| Admin.DayRoutes | src/pages/Admin.tsx:147-148 | the selected day's list from the index, or the empty list when the day has no entry |
| Admin.DayRoutesIsBucket | src/pages/Admin.tsx:147-148 | the selected day's list is that day's bucket, or empty when the day has none |
| Admin.CompletedCount | src/pages/Admin.tsx:375 | a cell's completed count never exceeds its list |
| Admin.PendingCount | src/pages/Admin.tsx:376 | a cell's pending count lies between 0 and the list length, and is 0 exactly when every route of the list is completed |
| Admin.PendingCountsPending | src/pages/Admin.tsx:374-376 | the pending count is the number of routes not completed, so completed + pending = the cell's list |
| Admin.CellCountsFollowToggle | src/pages/Admin.tsx:374-376 | evaluated at the filter's instant, every cell is all completed (toggle on) or all pending (toggle off) |
| Admin.ShiftMonthAsWritten | src/pages/Admin.tsx:151-152 | the arrow buttons as written (`setMonth(getMonth() ± 1)` on a cursor that keeps its day) always give a real date |
| Admin.ShiftMonthAsWrittenSkips | src/pages/Admin.tsx:151-152 | from 31 March "previous" stays in March (2 March), and from 31 January "next" skips February |
| Admin.ShiftMonth | src/pages/Admin.tsx:151-152 | the corrected move goes exactly `delta` months, with the year wrapping, and keeps the day of the month or clamps it to the month's last day |
| Admin.ShiftMonthAgrees | src/pages/Admin.tsx:151-152 | when the day exists in the target month, the corrected move equals the written one |
| Admin.RemoveRoute | src/pages/Admin.tsx:188 | removes exactly the routes with the id and keeps every other route |
| Admin.RemoveRouteExact | src/pages/Admin.tsx:188 | the other routes keep their order, and the removed ones are exactly those with the id |
| Admin.RemoveFile | src/pages/Admin.tsx:178 | every file left is one of the old files without the id, and every old file without the id is left |
| Admin.RemoveFileExact | src/pages/Admin.tsx:178 | the other files keep their order, and the removed ones are exactly those with the id |
| Admin.AdminView.constructor | src/pages/Admin.tsx:86-95 | empty search and lists, toggle off, both cursors today, no route in detail |
| Admin.AdminView.LoadRoutes | src/pages/Admin.tsx:102-103 | the fetched list replaces the cache and nothing else changes |
| Admin.AdminView.SetSearch | src/pages/Admin.tsx:412 | the search text is the typed text |
| Admin.AdminView.ToggleShowCompleted | src/pages/Admin.tsx:357 | the toggle flips |
| Admin.AdminView.GoPrevMonth | src/pages/Admin.tsx:348 | the month cursor moves one month back (corrected move); the selected day does not change |
| Admin.AdminView.GoNextMonth | src/pages/Admin.tsx:354 | the month cursor moves one month forward (corrected move); the selected day does not change |
| Admin.AdminView.GoToday | src/pages/Admin.tsx:351 | both cursors become today |
| Admin.AdminView.SelectDay | src/pages/Admin.tsx:382 | only the selected day changes, to the clicked cell's date, filler cells included |
| Admin.AdminView.OpenDetail | src/pages/Admin.tsx:449 | the clicked route is shown in detail |
| Admin.AdminView.CloseDetail | src/pages/Admin.tsx:203 | no route is shown in detail |
| Admin.AdminView.DeleteRoute | src/pages/Admin.tsx:184-193 | without confirmation or on a server error nothing changes; otherwise the route leaves the cache and the detail view closes |
| Admin.AdminView.DeleteFile | src/pages/Admin.tsx:174-182 | without confirmation or on a server error nothing changes; otherwise the list becomes `RemoveFile` of the old list, which keeps the other files in order |
| Vehicles.JoinBrandModel | src/pages/Vehicles.tsx:18-20 | empty exactly when both parts are blank; otherwise the trimmed non-blank parts separated by exactly one space |
| Vehicles.SplitBrandModel | src/pages/Vehicles.tsx:11-17 | the brand is empty or a single word without white space |
| Vehicles.SplitBlank | src/pages/Vehicles.tsx:12-13 | an empty or all-white-space field gives brand "" and model "" |
| Vehicles.SplitOneWord | src/pages/Vehicles.tsx:14-15 | a single word is the brand, with model "" |
| Vehicles.SplitShape | src/pages/Vehicles.tsx:11-17 | the brand is empty or one word without white space; it is the first word, and the model is the other words joined by single spaces |
| Vehicles.SplitOfWords | src/pages/Vehicles.tsx:14-16 | a trimmed field of two or more words splits into its first word and the rest |
| Vehicles.SplitJoin | src/pages/Vehicles.tsx:18-20 | round trip: a one-word brand and a model of single-spaced words are recovered by splitting their join |
| Vehicles.SplitJoinSplit | src/pages/Vehicles.tsx:84 | opening a vehicle for editing and saving it untouched stores a field that splits the same way |
| Vehicles.JoinTrimmed | src/pages/Vehicles.tsx:19 | two trimmed non-empty parts join with one space |
| Vehicles.TwoWordBrandMoves | src/pages/Vehicles.tsx:109 | a two-word brand does not survive the round trip: its second word moves into the model |
| Vehicles.VehiclesPage.constructor | src/pages/Vehicles.tsx:24-37 | empty list, empty form, no row in edit |
| Vehicles.VehiclesPage.SetPlate | src/pages/Vehicles.tsx:153 | the plate is stored upper-cased |
| Vehicles.VehiclesPage.SetEditPlate | src/pages/Vehicles.tsx:212 | the edited plate is stored upper-cased |
| Vehicles.VehiclesPage.Submit | src/pages/Vehicles.tsx:59-80 | with a blank brand, model or plate nothing is sent and nothing changes; otherwise the joined field and the plate are sent, and success clears the form and reloads the list |
| Vehicles.VehiclesPage.StartEdit | src/pages/Vehicles.tsx:82-88 | the row's id, its split field and its plate fill the edit |
| Vehicles.VehiclesPage.CancelEdit | src/pages/Vehicles.tsx:90-95 | no row in edit and the three edit fields empty |
| Vehicles.VehiclesPage.SaveEdit | src/pages/Vehicles.tsx:97-120 | no row in edit, or a blank field: nothing is sent and nothing changes; otherwise the update is sent for the row, and success closes the edit and reloads |
| NewRoute.PackagesText | src/pages/NewRoute.tsx:81 | an empty or zero package count is written "0"; a non-zero count is written as its decimal number |
| NewRoute.ClampPackages | src/pages/NewRoute.tsx:226 | an empty input stays empty; a number is raised to at least 0 and otherwise kept |
| NewRoute.ClampKeepsNonNegative | src/pages/NewRoute.tsx:193 | a count of 0 or more passes the input unchanged |
| NewRoute.AddUnload | src/pages/NewRoute.tsx:53-54 | one blank point is appended; the others are kept |
| NewRoute.UpdateUnload | src/pages/NewRoute.tsx:55-56 | only point `i` changes, by the edit; the length is kept; an index out of range changes nothing |
| NewRoute.EditTouchesOneField | src/pages/NewRoute.tsx:56 | an edit changes only its own field of the point |
| NewRoute.RemoveUnload | src/pages/NewRoute.tsx:57-58 | point `i` is dropped and the others keep their order; an index out of range changes nothing |
| NewRoute.CreateRoute | src/pages/NewRoute.tsx:61-105 | without a driver or a vehicle nothing is sent; otherwise the loop composes exactly `ComposedStops` and the request carries the driver, the vehicle, the start time and those stops |
| NewRoute.HasData | src/pages/NewRoute.tsx:76 | a blank point holds no data; a non-empty address or date is data; with both empty, the point holds data exactly when its package count is a non-zero number (an empty field or 0 is falsy) |
| NewRoute.LoadStop | src/pages/NewRoute.tsx:67-72 | the address or "(sin dirección)" when it is empty; no arrival time exactly when the load date is empty |
| NewRoute.UnloadStop | src/pages/NewRoute.tsx:78-83 | the name starts "Descarga " followed by the position; the address or "(sin dirección)"; no arrival time exactly when the date is empty |
| NewRoute.UnloadStops | src/pages/NewRoute.tsx:75-84 | never more stops than points |
| NewRoute.KeptIndices | src/pages/NewRoute.tsx:75-77 | at most one index per point, each in range |
| NewRoute.ComposedStops | src/pages/NewRoute.tsx:64-84 | the load stop first, then at most one stop per unloading point |
| NewRoute.KeptIndicesShape | src/pages/NewRoute.tsx:75-77 | the kept indices are in range and strictly increasing, and are exactly the points whose address, packages or date is truthy |
| NewRoute.UnloadStopsAt | src/pages/NewRoute.tsx:75-84 | each kept point gives one stop, in list order, built from that point and its original index |
| NewRoute.KeptCount | src/pages/NewRoute.tsx:76-77 | the number of kept points is the number of points holding data |
| NewRoute.ComposedStopsShape | src/pages/NewRoute.tsx:64-84 | the stop list starts with the load point "Punto de Carga (<company or Empresa>)", whose arrival time is missing exactly when its date is empty, and has one more stop than there are points holding data |
| NewRoute.ComposedStopAt | src/pages/NewRoute.tsx:78-83 | the stop of a kept point is named "Descarga <original 1-based index>", has no arrival time exactly when the date is empty, and notes "Bultos descargados: <packages or 0>" |
| NewRoute.BlankPointsAddNothing | src/pages/NewRoute.tsx:76-77 | blank points add no stops |
| Employees.EditFormOf | src/pages/Employees.tsx:67-78 | the edit copies name, surname, email and role; missing license and notes become ""; the password starts "" |
| Employees.EditPayload | src/pages/Employees.tsx:93-103 | the patch carries name, surname and email; license and notes default to "", the role defaults to driver; the password is included exactly when it has at least six characters |
| Employees.EditRoundTrip | src/pages/Employees.tsx:67-103 | editing and saving at once sends the stored data back, with no password |
| Employees.Admins | src/pages/Employees.tsx:129 | exactly the administrators of the list |
| Employees.Drivers | src/pages/Employees.tsx:130 | exactly the drivers of the list |
| Employees.RolePartition | src/pages/Employees.tsx:129-130 | both lists keep list order, share no employee, and together hold every employee exactly once |
| Employees.EmployeesPage.constructor | src/pages/Employees.tsx:32-38 | empty list, `emptyForm`, no row in edit |
| Employees.EmployeesPage.Submit | src/pages/Employees.tsx:51-65 | with an empty name, surname, email or password nothing is sent and nothing changes; otherwise the form is sent whole, and success resets it to `emptyForm` and reloads |
| Employees.EmployeesPage.StartEdit | src/pages/Employees.tsx:67-78 | the row's id and its edit form are set |
| Employees.EmployeesPage.CancelEdit | src/pages/Employees.tsx:80-83 | no row in edit and an empty edit |
| Employees.EmployeesPage.SaveEdit | src/pages/Employees.tsx:85-116 | no row in edit, or a missing name, surname or email: nothing is sent and nothing changes; otherwise the patch is sent for the row, and success closes the edit and reloads |
| Api.KeptEntries | src/lib/api.ts:50 | exactly the entries whose value is neither undefined nor null |
| Api.ToQuery | src/lib/api.ts:48-56 | no query or no kept entry gives ""; otherwise the result starts with "?" |
| Api.ToQueryReadBack | src/lib/api.ts:52-55 | when the encoder emits neither "&" nor "=", the string after "?" splits on "&" into one piece per kept entry, in entry order, and each piece splits on "=" into the encoded key and value |
| Api.ToQueryAllAbsent | src/lib/api.ts:50-51 | a query whose values are all undefined or null gives "" |
| Api.AuthHeaders | src/lib/api.ts:73-74 | the upload and delete headers are `Authorization: Bearer <token>` when the token is truthy, and empty otherwise |
| Api.FetchHeaders | src/lib/api.ts:19-23 | Content-Type defaults to application/json and a caller's header overrides it; the caller's other headers are kept; Authorization is set to the bearer token exactly when the token is truthy |
| Api.RequestBody | src/lib/api.ts:28 | the body is serialised exactly when it is truthy |
| Api.FetchRequest | src/lib/api.ts:16-29 | URL, method (GET by default), body and headers of `apiFetch`'s request |
| Api.UploadRequest | src/lib/api.ts:68-80 | POST to the path plus the query string; the headers are exactly `Authorization: Bearer <token>` when the token is truthy, and empty otherwise |
| Api.ErrorMessage | src/lib/api.ts:39 | the body's error if truthy, else its message if truthy, else "API error <status>" |
| Api.FetchOutcome | src/lib/api.ts:38-42 | failure exactly when the response is not ok, with the chosen message; otherwise the data |
| Api.DeleteOutcome | src/lib/api.ts:106-113 | `apiDelete`'s reassigned message equals the shared rule, and failure happens exactly when the response is not ok |
| Api.SameErrorMessage | src/lib/api.ts:87-91 | the helpers report the same message, and an undecodable body gives "API error <status>" |
| Driver.UpdateActive | src/pages/Driver.jsx:39-55 | the update applies to the stops whose id is strictly equal to the active value (absent equals absent, null equals null); every other stop, the length and the order are kept |
| Driver.Find | src/pages/Driver.jsx:37 | the first stop whose id equals the active value, or none when no stop matches |
| Driver.FindAfterUpdate | src/pages/Driver.jsx:39-55 | the updates keep ids, so the current stop stays at the same place |
| Driver.MarkDeliveredIdempotent | src/pages/Driver.jsx:41 | marking delivered twice is the same as once |
| Driver.IdlessStopsAllActive | src/pages/Driver.jsx:31-53 | on a route whose stops carry no id (as both route forms store them), the first stop is current and every update applies to all stops |
| Driver.DistinctIdsTouchOne | src/pages/Driver.jsx:39-55 | with pairwise distinct ids, an update changes the current stop and no other |
| Driver.DriverView.Current | src/pages/Driver.jsx:37 | the current stop is the stop at the first index whose id equals the active value (`Find`); with none, no stop matches |
| Driver.DriverView.CanMarkDelivered | src/pages/Driver.jsx:161-162 | the first stop matching the active value decides: the button is shown exactly when it is not delivered; with no matching stop there is no button |
| Driver.DriverView.constructor | src/pages/Driver.jsx:19-20 | no stops, and the active value is `null` |
| Driver.DriverView.Load | src/pages/Driver.jsx:29-32 | a fetched route replaces the stops (missing means none) and takes the first stop's id, possibly absent, as the active value, so the first stop is current; with no stops the active value is absent; no route changes nothing |
| Driver.DriverView.Select | src/pages/Driver.jsx:72 | the clicked stop's id, possibly absent, becomes the active value |
| Driver.DriverView.MarkDelivered | src/pages/Driver.jsx:39-43 | the stops matching the active value become delivered, the rest stay; afterwards the button is no longer offered |
| Driver.DriverView.SavePhoto | src/pages/Driver.jsx:45-49 | the stops matching the active value get photo "mock-photo", the rest stay |
| Driver.DriverView.SaveSign | src/pages/Driver.jsx:51-55 | the stops matching the active value get the signature, the rest stay |
| NewRouteForm.RouteForm.constructor | src/components/admin/NewRouteForm.tsx:9-12 | empty driver and vehicle, a single blank stop, not loading |
| NewRouteForm.RouteForm.AddStop | src/components/admin/NewRouteForm.tsx:14-15 | one blank stop is appended; the others are kept |
| NewRouteForm.RouteForm.UpdateStop | src/components/admin/NewRouteForm.tsx:17-20 | only field `key` of stop `i` changes; the length is kept |
| NewRouteForm.RouteForm.BeginCreate | src/components/admin/NewRouteForm.tsx:23-30 | loading is on and the record carries the driver, the vehicle and the stops exactly as entered |
| NewRouteForm.RouteForm.FinishCreate | src/components/admin/NewRouteForm.tsx:32-42 | loading is off whatever the outcome; success reports the route and resets the form to one blank stop; an error is shown and the form is kept |
| Auth.InitialToken | src/context/AuthContext.tsx:19 | the stored token, or none |
| Auth.InitialUser | src/context/AuthContext.tsx:20-23 | the parsed stored user, or none when the entry is missing or empty |
| Auth.UseAuth | src/context/AuthContext.tsx:12-16 | fails exactly outside a provider |
| Auth.AuthProvider.constructor | src/context/AuthContext.tsx:18-23 | a provider starts from what storage holds |
| Auth.AuthProvider.Login | src/context/AuthContext.tsx:25-30 | token and user set, both keys written, other keys untouched, and the token reads back |
| Auth.AuthProvider.Logout | src/context/AuthContext.tsx:32-37 | both fields cleared and both keys removed, other keys untouched |
| Auth.LoginSurvivesReload | src/context/AuthContext.tsx:19-29 | a reload after login restores the token, and restores the user when parsing undoes serialisation |
| Text.Trim | src/pages/Vehicles.tsx:12 | the result has no white space at either end, and is empty exactly for a blank string |
| Text.WordsAreWords | src/pages/Vehicles.tsx:14 | every piece of a white-space split is a non-empty run without white space |
| Text.WordsOfJoin | src/pages/Vehicles.tsx:16 | splitting words joined by single spaces gives the words back |
| Text.SplitOnJoin | src/lib/api.ts:54 | splitting pieces joined by a separator they do not contain gives the pieces back |
| Text.NatToStringValue | src/pages/NewRoute.tsx:79 | the rendered digits read back as the number |
| Text.UpperOfLower | src/pages/Admin.tsx:123 | upper-casing forgets a prior lower-casing |
| Seqs.FilterPartition | src/pages/Admin.tsx:133 | the two complementary filters of a list split it: sizes and multisets add up |

## Left out

- Network and storage I/O are not modelled. This covers `fetch`, the Supabase client, the data-loading effects and `alert`/`confirm` dialogs. A server answer enters as an argument: `serverOk`, the reloaded list, or the insert's error. A confirmation enters as a boolean.
- The calendar page's file-loading effect is not modelled, including the part that empties `files` as soon as no route is shown in detail. After `CloseDetail` or `DeleteRoute` the model's `files` still holds the closed route's files; the page shows them only while a route is open, and the effect replaces them when one opens.
- Asynchronous interleaving is not modelled. A later response overwriting newer state is a concurrency concern. The quick route form's insert is split into `BeginCreate` and `FinishCreate`; nothing happens between them in the model.
- Rendering is not modelled: JSX, the signature canvas, the month label and `formatTime` are locale output.
- Civil.MakeDate does not give years 0..99 the `Date` constructor's 1900 offset: `new Date(50, 0, 1)` is 1 January 1950, the model's is 1 January of year 50. This affects `StartOfMonth`, `EndOfMonth` and the in-month cells of `GetMonthGrid` only for a cursor in years 0..99. `setDate` and `setMonth` have no such offset.
- The `filtered` list is memoised and reads `Date.now()` only when the routes, the query or the toggle change, while each cell's counts read a fresh clock. The model gives every use of the clock the same instant `now`, so a route that passes the two-hour mark while the list is memoised is not modelled: the source keeps it in the pending list while the cell counts already call it completed.
- Calendar days are `Civil.Date` values without a time of day or a time zone. The source's cursors are full `Date` objects, but only their year, month and day are used. Equal `toDateString` keys are modelled as equal dates. The timestamp-to-day mapping of the host time zone is the parameter `dayOf`.
- Invalid dates, `NaN` and non-integer numbers are not modelled. `Number(e.target.value)` enters `ClampPackages` as an integer. Query values and package counts are integers.
- Case mapping is ASCII-only. `toUpperCase` and `toLowerCase` change only the letters A-Z and a-z, so letters such as "ñ" are compared as they are.
- Route fields are strings or absent. A non-string status counts as absent, as the `typeof` test in the source makes it. A missing code, driver or vehicle is not modelled; the source would render it as "undefined" in the search text.
- A JSON error body's `error` and `message` are modelled as optional strings. Other truthy values, such as numbers and objects, are not modelled. A body that fails to decode is `None`.
- `JSON.parse` throwing on a corrupt stored user is not modelled.
- A driver stop's `id` is `null`, absent or an integer. String ids and other JSON values are not modelled.
- The busy flags of the vehicles, employees and calendar pages are not modelled (`creating`, `saving`, `loading`, `uploading`). Only the quick route form's `loading` is.
- The uploader of the calendar page (`onUpload`) and the delete buttons of the vehicles and employees pages are not modelled. They only call the server and reload a list.
- Api.UploadRequest does not model the multipart body (`FormData`).
- Api.FetchRequest does not spell out the whole header map; `Api.FetchHeaders` does.
- Api.ValueText renders numbers as integers only.

## Findings

| source | as written | input that shows it | evidently intended | confidence | as-written member | corrected member |
|---|---|---|---|---|---|---|
| src/pages/Admin.tsx:151-152 | the month arrows copy the cursor and call `setMonth(getMonth() ± 1)`; the cursor keeps today's day of the month, and JavaScript rolls a missing day into the following month | cursor 31 March 2024, "previous": February has no 31st, so the cursor becomes 2 March and the calendar stays on March. Cursor 31 January 2024, "next": the cursor becomes 2 March and February is skipped | move exactly one month, keeping the day when the target month has it and clamping it otherwise | high; not executed | Admin.ShiftMonthAsWritten, Admin.ShiftMonthAsWrittenSkips | Admin.ShiftMonth (used by Admin.AdminView.GoPrevMonth and Admin.AdminView.GoNextMonth) |

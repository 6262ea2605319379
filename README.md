# Suppr reservations: request checks, status rules and phone search

This project models the back-end logic of a restaurant reservation manager.
It covers three parts:

- The reservations controller. It has eight middleware checks on a request
  body or a stored row. The three write endpoints (create, status update,
  field edit) and the read endpoint chain those checks. The list handler
  sorts and filters the rows it fetches.
- The tables controller. It has the required-properties and data checks, the
  create chain, the existence check and the sort by table name.
- The phone search of the reservations service. The key is the input's
  digits. Each stored number has `(`, `)`, `.`, space and `-` deleted. A row
  matches when its number is `LIKE '%key%'`. Results come back ordered by
  reservation date.

Every middleware check is a function returning an `Outcome`. The four outcomes are:

- `Pass`: the check calls `next()`.
- `Fail(status, message)`: the check calls `next({status, message})`.
- `MissingProperties`: the shared required-properties check rejected the body.
- `Thrown`: the check itself raised an exception.

An exported middleware array is modelled by `Middleware.Run`: the first
check that does not pass decides the response. The reservations table is a
class, `ReservationStore`, holding a map from id to row. Its methods run the
checks of their chain in order. They write only when every check passes, and
their postconditions give the whole new map. The tables controller changes
no state of its own, so it is modelled with functions.

Calendar and clock facts are inputs, gathered in `Clock`:

- the weekday that `getDay()` gives;
- whether the date and time are not before now;
- whether the date parses to exactly the current millisecond;
- the current time of day.

`localeCompare` is modelled as lexicographic comparison by character code
(`Text.Compare`, which returns -1, 0 or 1). That agrees with ICU collation on
equal-width `HH:MM:SS` times. It does not agree on free text such as table
names, where collation ignores case at first and orders accents differently.

`reservation_id` and `status` are not required properties. For them a
property left out of the body (`Absent`) and an explicit `null`
(`NullField`) are kept apart, because they behave differently downstream.
`null` prints as 'null' in a message. An insert stores `null` as null,
not as the default status. An update `where reservation_id IS NULL` matches
no row.

Behaviours of the code that the model keeps as written:

- The party size must only be of type number. It is not checked to be positive.
- The closed-day check is `getDay() !== 1` (reservations.controller.js:60),
  while its message names Tuesday (reservations.controller.js:64). A
  date-only string parses as UTC midnight, so on a server west of UTC
  `getDay()` gives 1 for Tuesday dates.
- Only a stored `finished` status blocks a status update or an edit. A
  `cancelled` row can still be changed (`CancelledDoesNotBlock`).
- An edit requires the body's own status to be `booked`. The stored row may
  be seated or cancelled (`EditAcceptsIff`).
- `list` drops finished rows from every listing: by date, by phone and unfiltered.
- An edit checks the row named in the path but writes the body under the
  body's own `reservation_id` (`ReservationStore.UpdateReservation`). A body
  carrying another id therefore writes to that row. The write happens even
  if that row is finished.
- Seating a party at a table and freeing a table are not part of the
  back-end code modelled here. No table-occupancy invariant is modelled.

## Model

| member | source | states |
|---|---|---|
| `Middleware.Run` | back-end/src/reservations/reservations.controller.js:289-311 | the answer of a chain is either a pass or the outcome of one of its checks |
| `Middleware.RunCons` | back-end/src/reservations/reservations.controller.js:289-295 | running a chain runs its first check, and the rest only when that check passes |
| `Middleware.RunPassesIff` | back-end/src/reservations/reservations.controller.js:289-311 | a chain passes iff every one of its checks passes |
| `Middleware.RunFirstFailure` | back-end/src/reservations/reservations.controller.js:289-311 | a rejected chain answers with the outcome of a check all of whose predecessors passed: the first failure decides the error |
| `Text.Compare` | back-end/src/reservations/reservations.controller.js:94-97 | the comparison, like `localeCompare`, answers only -1, 0 or 1 |
| `Text.CompareAntisymmetric` | back-end/src/reservations/reservations.controller.js:244-246 | swapping the arguments negates the comparison |
| `Text.CompareZeroIffEqual` | back-end/src/reservations/reservations.controller.js:244-246 | the comparison is 0 exactly for equal strings |
| `Text.CompareTransitive` | back-end/src/tables/tables.controller.js:56-58 | the comparator order is transitive, so sorting by it is well defined |
| `Sorting.Insert` | back-end/src/tables/tables.controller.js:56-58 | inserting into a sorted sequence gives a sorted sequence with exactly one more element |
| `Sorting.SortBy` | back-end/src/tables/tables.controller.js:56-58 | the sort returns a permutation of its input that is in non-decreasing key order |
| `Sorting.Filter` | back-end/src/reservations/reservations.controller.js:249 | the filter keeps only accepted elements, each from the input |
| `Sorting.FilterCount` | back-end/src/reservations/reservations.controller.js:249 | the filter keeps every accepted element exactly as often as it occurs, and drops all others |
| `Sorting.FilterSorted` | back-end/src/reservations/reservations.controller.js:243-249 | filtering after sorting leaves the result sorted |
| `Sorting.FilterAppend` | back-end/src/reservations/reservations.service.js:77-78 | deleting characters from a concatenation is deleting them from each part, so order is kept |
| `Sorting.FilterPartition` | back-end/src/reservations/reservations.service.js:80 | splitting rows into those with a sort key and those without loses and duplicates none |
| `Sorting.KeyedAppend` | back-end/src/reservations/reservations.service.js:80 | sorted keyed rows followed by unkeyed rows put every keyed row first, in key order |
| `Sorting.SortByNullsLast` | back-end/src/reservations/reservations.service.js:80 | an ascending sort with nulls last: a permutation of its input in which every row with a key precedes every row without one, and the keyed rows are in key order |
| `Reservations.ParseStatus` | back-end/src/reservations/reservations.controller.js:220-221 | reading a status string gives a status whose name is that string; it is `Other` exactly for strings outside the four known names |
| `Reservations.NameInjective` | back-end/src/reservations/reservations.controller.js:199-200 | two statuses are equal iff their strings are, so comparing cases is comparing strings |
| `ReservationsController.FirstMatch` | back-end/src/reservations/reservations.controller.js:52-56 | `match` without the global flag finds the leftmost position where the pattern matches, or reports that none does |
| `ReservationsController.HasAllValidProperties` | back-end/src/reservations/reservations.controller.js:19-26 | passes iff first name, last name, mobile number, date, time and party size are all truthy; otherwise the required-properties rejection |
| `ReservationsController.HasValidReservationData` | back-end/src/reservations/reservations.controller.js:40-77 | passes iff the date contains `dddd-dd-dd`, the time contains `dd:dd`, `people` is a number, the weekday is not 1 and the slot is not past; otherwise a 400 whose message is the closed-day text when both formats occur and the date check fails, and the generic format text in every other case; an absent date or time throws |
| `ReservationsController.IsDuringBusinessHours` | back-end/src/reservations/reservations.controller.js:90-119 | passes iff the time is strictly after "10:30:00" and strictly before "21:30:00" (and after the current time when the date is now); otherwise a 400 with the fixed message; an absent time throws |
| `ReservationsController.BoundaryTimesRejected` | back-end/src/reservations/reservations.controller.js:93-97 | "10:30:00" and "21:30:00" themselves are refused |
| `ReservationsController.LastSecondAccepted` | back-end/src/reservations/reservations.controller.js:93-97 | "21:29:59" is accepted when the date is not now |
| `ReservationsController.MissingInvalidStatus` | back-end/src/reservations/reservations.controller.js:199-208 | passes iff the status is left out, null, or a string other than "seated" and "finished"; otherwise the fixed 400 |
| `ReservationsController.NoCrazyStatus` | back-end/src/reservations/reservations.controller.js:220-229 | passes iff the status string is one of finished, seated, booked, cancelled; otherwise a 400 whose message names the given value ('undefined' when left out, 'null' when null) |
| `ReservationsController.HasBookedStatus` | back-end/src/reservations/reservations.controller.js:178-187 | passes iff the body's status string is exactly "booked"; otherwise the fixed 400 |
| `ReservationsController.ReservationExists` | back-end/src/reservations/reservations.controller.js:131-142 | passes iff a row with the id exists and its status is truthy (present and not the empty string); otherwise a 404 naming the id |
| `ReservationsController.IsUnfinished` | back-end/src/reservations/reservations.controller.js:154-166 | passes iff the row exists and its status is not the string "finished" (a null status passes); otherwise the fixed 400 |
| `ReservationsController.CreateInOrder` | back-end/src/reservations/reservations.controller.js:289-295 | create runs required properties, data, business hours, status, in that order, and answers with the first that fails |
| `ReservationsController.StatusInOrder` | back-end/src/reservations/reservations.controller.js:298-303 | a status update runs existence, status whitelist, not finished, in that order, and answers with the first that fails |
| `ReservationsController.EditInOrder` | back-end/src/reservations/reservations.controller.js:304-311 | an edit runs required properties, data, existence, not finished, booked body status, in that order, and answers with the first that fails |
| `ReservationsController.ReadInOrder` | back-end/src/reservations/reservations.controller.js:296 | a read answers with the existence check |
| `ReservationsController.CreateAcceptsIff` | back-end/src/reservations/reservations.controller.js:13-26 | create is accepted iff all six fields are truthy, both formats occur, people is a number, the date check holds, the time is in the window, and the status is not seated or finished |
| `ReservationsController.CreateStatusRule` | back-end/src/reservations/reservations.controller.js:199-208 | on an accepted create, leaving the status out, sending null, or any string except "seated" and "finished" keeps it accepted |
| `ReservationsController.FinishedBlocksModification` | back-end/src/reservations/reservations.controller.js:154-166 | a stored finished row makes both the status update and the edit chain fail |
| `ReservationsController.CancelledDoesNotBlock` | back-end/src/reservations/reservations.controller.js:298-303 | a stored cancelled row accepts any known status |
| `ReservationsController.EditAcceptsIff` | back-end/src/reservations/reservations.controller.js:304-311 | an edit is accepted iff the body is complete and well formed, the stored row exists with a truthy status that is not finished, and the body's own status is booked |
| `ReservationsController.ChooseFetch` | back-end/src/reservations/reservations.controller.js:235-241 | a truthy `date` query selects the by-date listing; otherwise a truthy `mobile_number` selects the search; otherwise everything is listed |
| `ReservationsController.List` | back-end/src/reservations/reservations.controller.js:243-249 | when several rows are fetched, each with a time, the response is sorted by reservation time; it holds no finished row, and keeps every fetched row that is not finished exactly as often as it was fetched |
| `ReservationsController.ReservationStore.constructor` | back-end/src/reservations/reservations.service.js:60-65 | an empty table whose first id is 1 |
| `ReservationsController.ReservationStore.Create` | back-end/src/reservations/reservations.controller.js:253-256 | on any failing check the table is unchanged and the first failure is the answer; otherwise exactly one row is added, under a fresh id, and answered with 201; a status left out becomes booked, a null status is stored as null; every stored row keeps its required properties |
| `ReservationsController.ReservationStore.Read` | back-end/src/reservations/reservations.controller.js:259-261 | answers with the stored row, or with the 404 of the existence check |
| `ReservationsController.ReservationStore.UpdateStatus` | back-end/src/reservations/reservations.controller.js:264-274 | on failure nothing is written; otherwise the loaded row is written back with only its status replaced by the requested one |
| `ReservationsController.ReservationStore.UpdateReservation` | back-end/src/reservations/reservations.controller.js:277-285 | on failure nothing is written; otherwise the body replaces the row under the body's own id; with no id in the body the query throws; with a null id, or an id that has no row, nothing is written and no data is returned |
| `ReservationsService.SearchKey` | back-end/src/reservations/reservations.service.js:78 | the key consists only of digits |
| `ReservationsService.SearchKeyCount` | back-end/src/reservations/reservations.service.js:78 | the key holds each digit as often as the input does, and no other character |
| `ReservationsService.SearchKeyAppend` | back-end/src/reservations/reservations.service.js:78 | the key of a concatenation is the concatenation of the keys: the digits keep their order |
| `ReservationsService.SearchKeyOfDigits` | back-end/src/reservations/reservations.service.js:78 | an all-digit input is its own key, so taking the key is idempotent |
| `ReservationsService.StripPunctuation` | back-end/src/reservations/reservations.service.js:77 | the normalised number contains none of `(`, `)`, `.`, space, `-` |
| `ReservationsService.StripPunctuationCount` | back-end/src/reservations/reservations.service.js:77 | every other character is kept as often as it occurs |
| `ReservationsService.LikeLiteralPrefix` | back-end/src/reservations/reservations.service.js:76-78 | a wildcard-free pattern prefix matches exactly that prefix of the text |
| `ReservationsService.LikePercentAll` | back-end/src/reservations/reservations.service.js:76-78 | `%` alone matches every text |
| `ReservationsService.LikeLeadingPercent` | back-end/src/reservations/reservations.service.js:76-78 | a leading `%` matches iff the rest of the pattern matches some suffix |
| `ReservationsService.LikeContains` | back-end/src/reservations/reservations.service.js:76-78 | for a wildcard-free key, `LIKE '%key%'` holds iff the key is a contiguous substring |
| `ReservationsService.MatchesIff` | back-end/src/reservations/reservations.service.js:76-78 | a row matches iff it has a number and the key is a substring of the number with punctuation removed |
| `ReservationsService.EmptyKeyMatchesAll` | back-end/src/reservations/reservations.service.js:78 | an input without digits matches every row that has a number |
| `ReservationsService.DashedInputFindsParenthesisedNumber` | back-end/src/reservations/reservations.service.js:77-78 | input `a-b` finds the number stored as `(a) b`, for example "555-0100" and "(555) 0100" |
| `ReservationsService.Search` | back-end/src/reservations/reservations.service.js:74-81 | every dated row comes before every undated one and the dated rows are in non-decreasing date order; the result holds each matching row exactly as often as the table does, and no other row |
| `TablesController.HasAllValidProperties` | back-end/src/tables/tables.controller.js:12-15 | passes iff the table name and the capacity are truthy; otherwise the required-properties rejection |
| `TablesController.HasValidTableData` | back-end/src/tables/tables.controller.js:17-35 | passes iff the name has at least two characters and the capacity is a number above zero; otherwise the fixed 400; an absent name throws |
| `TablesController.CreateInOrder` | back-end/src/tables/tables.controller.js:77 | the create chain runs the required-properties check, then the data check, and answers with the first that fails |
| `TablesController.CreateAcceptsIff` | back-end/src/tables/tables.controller.js:12-15 | a table is accepted iff its name has two or more characters and its capacity is a positive number; the required-properties check never rejects a body the data check accepts |
| `TablesController.Create` | back-end/src/tables/tables.controller.js:64-67 | on failure the stored tables are unchanged and the first failure is the answer; otherwise exactly one row, carrying the body's name and capacity, is appended |
| `TablesController.CreateKeepsNamed` | back-end/src/tables/tables.controller.js:64-67 | if every stored table has a name, so does every table after a create, accepted or not |
| `TablesController.TableExists` | back-end/src/tables/tables.controller.js:37-48 | passes iff the read resolved to a value (an array); otherwise a 404 with the fixed message |
| `TablesController.TableExistsNeverFails` | back-end/src/tables/tables.service.js:22-24 | since the read always resolves to an array, the existence check passes for every id, with an empty array when no row has that id |
| `TablesController.List` | back-end/src/tables/tables.controller.js:53-61 | the response is a permutation of the fetched tables, sorted by name when several named tables are fetched |

## Left out

- Database queries (`update`, `readReservation`, `listByDate`, `listAll`, `create` of both services, and `read`/`listAll` of the tables service): they are replaced by the map in `ReservationStore`, the row sequence of `TablesController.Create`, and the fetched rows passed to `List`. Which rows the by-date and list-all queries return, and in what order, is left to those callers.
- The table's default for a missing status is defined by a migration that is not part of this model. `Inserted` stores `booked` for a status left out of the body. An explicit `reservation_id` in a create body is replaced by the next id.
- Column type coercion: a body is stored as it was sent.
- `hasProperties` and `asyncErrorBoundary` are not part of this model. Their outcomes are `MissingProperties` and `Thrown`, without status or message.
- Dates and the clock: `new Date`, `getDay`, `Date.parse` and `Date.now` are inputs in `Clock`, so time zones are not modelled.
- `localeCompare` is plain character-code order, not ICU collation.
- `people`, `capacity` and other numbers are finite reals. NaN and the infinities are not represented.
- Text fields hold strings or are absent. A number or boolean sent as a name, phone, date or time is not modelled. Lengths count characters, not UTF-16 code units.
- `ReservationsController.List` takes the fetched rows and is stated up to the order of rows with equal times. JavaScript's sort is also stable; that is not stated.
- `ReservationsService.Search`: the database's `ORDER BY` leaves rows with equal dates in any order. The contract states only what every such order satisfies: undated rows last, dated rows in date order, and the matching rows.
- `ReservationsController.List` requires every fetched row to have a time when there are several. With an untimed row among several, the source's comparator either throws a TypeError or compares against the text "null". Which one happens depends on the pairs V8's sort compares, and that is not modelled. `ReservationStore.Valid` keeps the required properties, times included, on every stored row.
- `TablesController.List` requires every fetched table to have a name when there are several, for the same reason (`CreateKeepsNamed`).
- `NoCrazyStatus`, `MissingInvalidStatus`, `HasBookedStatus`: a status sent as a number, boolean or object is not modelled. A status is a string, null, or left out.
- `ReservationsService.Like`: a pattern ending in a lone backslash is an error in PostgreSQL. Here it matches a literal backslash. Search keys never contain one.
- `TablesController.Create` gives the new row the id one past the number of stored rows. The database's sequence is not modelled.
- The table `read` handler (tables.controller.js:70-72) only returns what `tableExists` stored. The tables router does not route it (tables.router.js:11).
- Promise details, such as the missing `.catch` in `isUnfinished`, and request parameters that are not integers.
- Seating a reservation at a table and freeing a table: no back-end handler for them is part of the modelled source.
- The front end (forms, dashboard, API client): its checks repeat the back end's for the user interface.

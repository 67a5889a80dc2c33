# Rewind Scout: verified model of the scouting core

Rewind Scout is a web app for robotics-competition scouting. Scouts fill in a
form defined per season, and the app aggregates the stored records. This
project models the in-memory logic of its pages and of the event import route,
and proves what that logic promises:

- **Leaderboard** (`Leaderboard`, `Scope`). Which attribute keys are numeric
  metrics. Per-team record counts and averages. The view sorted by one metric.
  The event or season scope a query is filtered by.
- **Scout leaderboard** (`ScoutBoard`). Match and pit records counted per
  scout. Display names with their fallbacks. Totals, the sort and the current
  user's rank.
- **Form builder** (`FormSchema`). Adding, removing and moving fields. Parsing
  a multiple-choice field's option list. Normalising a loaded definition.
- **Scouting form** (`Collector`). A class whose fields are the page state:
  season, event code, match key, team number, fields, values and status. It
  covers starting values, counter buttons, `setValue`, the submit guard and the
  reset after a submit.
- **Analysis** (`Analysis`). The offered metric keys, the chart points for one
  key, and their mean.
- **CSV export** (`CsvExport`). The header, one line per record, and the
  metrics JSON quoted with its quotes doubled (RFC 4180, section 2, rule 7).
- **Check-in** (`CheckIn`). The season's events by code prefix, and the
  case-insensitive search.
- **Event import route** (`EventsRoute`). Status decisions, the event-to-row
  mapping, and upserts in chunks of 1000 that stop at the first failure.
- **Header** (`Header`). The avatar initials.

Shared modules:

- `JsValue`: attribute values and JavaScript's `Number()` coercion.
- `Text`: trim, split/join, ASCII case, `parseInt`, `String(n)`.
- `Seqs`: `filter`, subsequences, counting, and the insertion order of
  `Map`/`Set`.
- `StableSort`: the stable descending sort `Array.prototype.sort` performs.
- `StringOrder`: the default string order of `sort()`.
- `Wrappers`: `Option`.

Store queries, `fetch`, the clock and `localStorage` are parameters. Each
operation receives their results (rows, an upstream response, the stored event
code, the current year, whether a call failed).

Where the design description and the code disagree, the model follows the code:

- **Leaderboard averages.** A team's average divides the sum of its numeric
  values by the team's total record count, not by the number of numeric values
  (src/app/leaderboard/page.tsx:87, 98). `Leaderboard.NonNumericDilutes` states
  the consequence.
- **Multiple-choice fields.** Such a field gets no starting value on the
  scouting form (src/app/scout/page.tsx:36-40), not an empty one.

## Model

| member | source | states |
|---|---|---|
| JsValue.ToNumber | src/app/leaderboard/page.tsx:72 | `Number(v)`: numbers unchanged, booleans 1/0, null 0, objects NaN, strings through the given string coercion, arrays through their string form |
| JsValue.NumberOrZero | src/app/analysis/page.tsx:54 | `Number(v) \|\| 0`: the coerced number, or 0 when it is NaN |
| Scope.SeasonYear | src/app/leaderboard/page.tsx:39-43 | the season is the number written by the stored code's first four characters when they are digits, otherwise the current year |
| Scope.ScopeFilter | src/app/leaderboard/page.tsx:33-44 | event scope filters by the stored code only when one is stored and non-empty, else no filter; season scope always filters by `SeasonYear` |
| Scope.SeasonOfEventCode | src/app/me/page.tsx:34 | a code beginning with a four-digit year puts the season scope on that year, whatever the calendar says |
| StringOrder.SortedListing | src/app/leaderboard/page.tsx:76 | `Array.from(set).sort()`: strictly ascending, and holds exactly the set's members |
| StringOrder.LessTotal | src/app/leaderboard/page.tsx:76 | any two distinct strings are ordered one way or the other |
| Leaderboard.NumericMetrics | src/app/leaderboard/page.tsx:67-80 | the metric list is strictly ascending (so duplicate-free), and a key is in it iff some record holds that key with a value whose `Number()` is not NaN |
| Leaderboard.CheckboxAndBlankAreMetrics | src/app/leaderboard/page.tsx:72-73 | a checkbox value or a blank text makes its key a metric, because `Number(true)` and `Number("")` are numbers |
| Leaderboard.TeamAverages | src/app/leaderboard/page.tsx:82-103 | one row per distinct team in first-appearance order, each with that team's record count and, for every metric, its numeric sum divided by that count |
| Leaderboard.Project | src/app/leaderboard/page.tsx:94-101 | the projection of the accumulated counts and sums gives, per team, the count and an average entry for exactly the metrics |
| Leaderboard.CountsCoverRows | src/app/leaderboard/page.tsx:83-94 | the team counts add up to the number of records, and every count is at least 1 |
| Leaderboard.NonNumericDilutes | src/app/leaderboard/page.tsx:89-90 | a record lacking the key, or holding a non-numeric value for it, adds nothing to its team's sum but one to its count |
| Leaderboard.NoNumericAveragesZero | src/app/leaderboard/page.tsx:96-98 | a team with no numeric value for a key averages 0 for it |
| Leaderboard.SortKey | src/app/leaderboard/page.tsx:106 | the sort key is the chosen metric, else the first metric, else none |
| Leaderboard.SortedView | src/app/leaderboard/page.tsx:105-109 | the sorted view is a permutation of the team rows, non-increasing in the key's average (missing read as 0), and the rows unchanged when there is no key |
| Leaderboard.SortedViewStable | src/app/leaderboard/page.tsx:108 | teams with equal averages keep their first-appearance order |
| StableSort.SortDesc | src/app/leaderboard/page.tsx:108 | the comparator sort yields a permutation that is non-increasing in the key |
| StableSort.SortDescStable | src/app/me/page.tsx:80 | the sort is stable: the elements sharing a key value appear in their input order |
| StableSort.SumBySortDesc | src/app/me/page.tsx:80 | sorting does not change the sum of a per-row quantity |
| Seqs.Distinct | src/app/me/page.tsx:59 | `Array.from(new Set(xs))`: duplicate-free and holding exactly the members of `xs` |
| Seqs.DistinctInFirstAppearanceOrder | src/app/leaderboard/page.tsx:83-94 | a `Map`/`Set` lists its keys in order of first insertion |
| Seqs.SumCountsDistinct | src/app/leaderboard/page.tsx:86-87 | the per-key counts of the distinct keys add up to the length of the list |
| Seqs.FilterIsSubsequence | src/app/check-in/page.tsx:37 | `filter` keeps an order-preserving subsequence |
| ScoutBoard.IdsOfCount | src/app/me/page.tsx:52-58 | a scout's count is the number of records carrying that id; null or empty ids count for nobody |
| ScoutBoard.CountByScout | src/app/me/page.tsx:51-58 | the `forEach` counting builds a map whose keys are the distinct ids in first-appearance order, each with its number of records |
| ScoutBoard.BuildPeople | src/app/me/page.tsx:62-73 | the filled and patched `people` dictionary equals its specification `People` |
| ScoutBoard.Or | src/app/me/page.tsx:66 | `a \|\| b` on a nullable string: null and "" fall through to `b` |
| ScoutBoard.LabelOfProfiled | src/app/me/page.tsx:64-67 | a scout with a profile is shown by full name, else profile email, else id, with the profile email or "" |
| ScoutBoard.LabelOfUnprofiled | src/app/me/page.tsx:71-78 | a scout without a profile is shown by id with an empty email; the patched current user is shown by their email, else id |
| ScoutBoard.Tally | src/app/me/page.tsx:51-80 | the counting loops, the id union, the `people` dictionary and the sorted rows together equal the specification `Board` |
| ScoutBoard.Load | src/app/me/page.tsx:71-73 | the intended load patches the signed-in user's own id and email into `people` |
| ScoutBoard.LoadAsWritten | src/app/me/page.tsx:29-73 | the load as written patches whatever `meId`/`meEmail` the starting render held |
| ScoutBoard.FirstLoadMissesOwnLabel | src/app/me/page.tsx:71-73 | with the stale empty id, a profile-less current user is labelled by raw id instead of email |
| ScoutBoard.BoardRows | src/app/me/page.tsx:62-80 | every row's total is its match count plus its pit count, those are the record counts for its id, every total is at least 1, every row's name and email are its id's label among the people (profiles, then the current user's patch), and the rows run from highest total down |
| ScoutBoard.BoardIdsUnique | src/app/me/page.tsx:59 | no scout appears twice |
| ScoutBoard.BoardIdsCover | src/app/me/page.tsx:59-75 | the board lists exactly the scouts that have a match or pit record |
| ScoutBoard.BoardTotals | src/app/me/page.tsx:52-59 | the totals add up to the number of records with a scout id, over both tables |
| ScoutBoard.MeRank | src/app/me/page.tsx:88-91 | the rank is present iff the user's id is on the board, and then it is the 1-based position of its first row |
| ScoutBoard.NoRankForEmptyId | src/app/me/page.tsx:88-91 | an empty user id never has a rank |
| FormSchema.LoadedFields | src/app/form-builder/page.tsx:43-44 | an absent, null or non-array definition gives the empty list; an array is taken as it is |
| FormSchema.ParseOptionsClean | src/app/form-builder/page.tsx:55-60 | every option is non-empty, holds no comma and has no white space at either end |
| FormSchema.ParseOptionsJoin | src/app/form-builder/page.tsx:56-59 | options without commas or edge spaces survive a join with commas and a re-parse unchanged |
| FormSchema.AddField | src/app/form-builder/page.tsx:51-64 | a blank label changes nothing; otherwise exactly one field is appended, with the trimmed label, the chosen type, options only for a multiple-choice field, and the label and options inputs are cleared |
| FormSchema.RemoveField | src/app/form-builder/page.tsx:66-68 | the result holds exactly the fields whose id differs |
| FormSchema.RemoveFieldKeepsOrder | src/app/form-builder/page.tsx:67 | removal keeps the remaining fields in their relative order, with every copy of a kept field and none of a removed one |
| FormSchema.RemoveUndoesAdd | src/app/form-builder/page.tsx:61-67 | removing a field just added under a fresh id restores the list |
| FormSchema.IndexOfId | src/app/form-builder/page.tsx:72 | `findIndex`: none iff no field has the id, else the first index that has it |
| FormSchema.Moved | src/app/form-builder/page.tsx:70-82 | same length; a no-op for an unknown id or a move off either end; otherwise the field and its neighbour swap and every other slot is unchanged |
| FormSchema.MovedPermutes | src/app/form-builder/page.tsx:70-82 | a move is a permutation of the fields |
| FormSchema.MoveField | src/app/form-builder/page.tsx:70-82 | the swap done on an array copy equals `Moved` |
| FormSchema.MoveUpThenDown | src/app/form-builder/page.tsx:74-80 | moving a field up and back down restores the list |
| Collector.DefaultValue | src/app/scout/page.tsx:37-39 | counters start at 0, checkboxes at false, texts at ""; a multiple-choice field gets no entry |
| Collector.InitialValues | src/app/scout/page.tsx:35-40 | the value map has an entry exactly for the labels of counter, checkbox and text fields, holding the starting value of the last such field with that label |
| Collector.InitialUnique | src/app/scout/page.tsx:76-81 | the starting values are determined by the field list, so the reset after a submit equals the values after loading |
| Collector.Incremented | src/app/scout/page.tsx:117 | `(v ?? 0) + 1`: a missing value becomes 1, a number goes up by exactly 1, a text gets "1" appended |
| Collector.Decremented | src/app/scout/page.tsx:115 | `Math.max(0, (v ?? 0) - 1)`: never negative, and NaN exactly when the value has no number |
| Collector.DecrementUndoesIncrement | src/app/scout/page.tsx:115-117 | "+" then "-" on a non-negative (or missing) count restores it |
| Collector.Collector.constructor | src/app/scout/page.tsx:12-19 | the form starts at the default season with empty inputs, fields and values |
| Collector.Collector.SetSeasonInput | src/app/scout/page.tsx:93 | the season is `parseInt` of the input, and the default season when the input is empty; nothing else changes |
| Collector.Collector.SetIdentity | src/app/scout/page.tsx:97-105 | the three identifying inputs take the typed text; nothing else changes |
| Collector.Collector.LoadForm | src/app/scout/page.tsx:21-46 | a store error changes only the status; otherwise the fields are the loaded list and the values their starting values |
| Collector.Collector.SetValue | src/app/scout/page.tsx:48-50 | only the entry for the given label changes |
| Collector.Collector.Increment | src/app/scout/page.tsx:117 | the label's entry becomes `Incremented` of its old value; nothing else changes |
| Collector.Collector.Decrement | src/app/scout/page.tsx:115 | the label's entry becomes `Decremented` of its old value; nothing else changes |
| Collector.Collector.Submit | src/app/scout/page.tsx:52-84 | without event code, match key and team number nothing is sent and only the status changes; otherwise the payload carries season, code, key, parsed team number, scout id and values; a failed insert keeps everything; a successful one clears match key and team number and resets the values, keeping season and event code |
| Text.ParseIntOfIntToString | src/app/scout/page.tsx:93 | `parseInt(String(n), 10) == n`, so an empty season input falls back to exactly the default season |
| Text.TrimIdempotent | src/app/form-builder/page.tsx:54 | trimming a trimmed label changes nothing |
| Text.SplitJoin | src/app/form-builder/page.tsx:56-57 | splitting a join of separator-free pieces gives back the pieces |
| Text.JoinSplit | src/app/form-builder/page.tsx:56-57 | joining the pieces of a split gives back the text |
| Analysis.MetricOptions | src/app/analysis/page.tsx:41-49 | the options are strictly ascending and hold exactly the keys of every record's metrics object |
| Analysis.PointValue | src/app/analysis/page.tsx:54 | a missing metrics object or key gives 0, otherwise the number or 0 for NaN |
| Analysis.ChartData | src/app/analysis/page.tsx:51-56 | no key gives no points; otherwise one point per record, in record order, named by match key, so the NaN filter drops nothing |
| Analysis.Avg | src/app/analysis/page.tsx:58-62 | 0 for no points, otherwise the mean: average times count equals the sum |
| Analysis.AvgWithin | src/app/analysis/page.tsx:59-61 | the mean lies between any lower and upper bound of the values |
| Analysis.AvgBetweenMinAndMax | src/app/analysis/page.tsx:59-61 | the mean lies between the smallest and the largest point |
| Analysis.AbsentKeyAveragesZero | src/app/analysis/page.tsx:51-61 | a key no record holds charts as zeros and averages 0 |
| CsvExport.HeaderColumnsSplit | src/app/admin/page.tsx:51-52 | the header splits back into the seven column names |
| CsvExport.Escape | src/app/admin/page.tsx:53 | quote-doubling leaves text without quotes unchanged and never shortens it |
| CsvExport.UnescapeEscape | src/app/admin/page.tsx:53 | collapsing each `""` of the escaped text recovers the original JSON text |
| CsvExport.MetricsCell | src/app/admin/page.tsx:53-54 | the metrics column is wrapped in one pair of quotes and unescapes to the JSON text, `{}` when the metrics are null |
| CsvExport.RecordLines | src/app/admin/page.tsx:52-55 | exactly one line per record, in record order |
| CsvExport.NumberCell | src/app/admin/page.tsx:54 | a null season or team number prints as the empty cell, and only a null one does |
| CsvExport.NumberCellParses | src/app/admin/page.tsx:54 | a number cell parses back to its number, and an empty cell to none |
| CsvExport.ColumnsRecovered | src/app/admin/page.tsx:54 | a line splits back into season, event code, match key, team number, scout id and creation time, unquoted and in that order, with null numbers as empty cells |
| CsvExport.CsvLines | src/app/admin/page.tsx:52-63 | the text splits at newlines back into the header and one line per record, so the reported count is the number of data lines |
| CheckIn.SeasonPrefix | src/app/check-in/page.tsx:36 | `String(season)` is never empty (NaN prints as "NaN") |
| CheckIn.SeasonEvents | src/app/check-in/page.tsx:36-37 | an event is kept iff its code (null read as "") starts with the season's text; no kept event has a null code |
| CheckIn.SeasonEventsOrder | src/app/check-in/page.tsx:37 | the season's events keep the store's order, with every copy of a kept event and none of a dropped one |
| CheckIn.Search | src/app/check-in/page.tsx:69 | an event is kept iff its lower-cased `code + " " + name` contains the lower-cased query |
| CheckIn.EmptySearchKeepsAll | src/app/check-in/page.tsx:69 | an empty search keeps every event |
| CheckIn.SearchOrderAndIdempotent | src/app/check-in/page.tsx:69 | the search keeps the list order, with every copy of a matching event and none of another, and searching again changes nothing |
| CheckIn.SearchIgnoresCase | src/app/check-in/page.tsx:69 | upper- or lower-casing the query does not change the result |
| Header.LocalPart | src/components/Header.tsx:32 | the text before the first `@`, or the whole address when it has none |
| Header.Initials | src/components/Header.tsx:30-34 | "" for no address; otherwise the upper-cased first two characters of the local part, or all of it when shorter |
| Header.InitialsIgnoreDomain | src/components/Header.tsx:32-33 | the domain never changes the initials |
| EventsRoute.Rows | src/app/api/tba/events/route.ts:31-36 | one row per event, in order, with code = key and missing dates as null |
| EventsRoute.ChunksCover | src/app/api/tba/events/route.ts:39-41 | the chunks concatenate back to the rows, and each has 1 to 1000 rows |
| EventsRoute.ChunkAt | src/app/api/tba/events/route.ts:39-41 | there are ceil(n / 1000) chunks, and chunk k is the slice starting at row 1000k |
| EventsRoute.FirstFailure | src/app/api/tba/events/route.ts:42-47 | the first upsert call that fails: all earlier calls succeeded |
| EventsRoute.Get | src/app/api/tba/events/route.ts:4-52 | no season gives 400 and no auth key gives 500, both before any upstream call; a failed upstream gives 502; chunks are sent in order up to and including the first failure, which gives 500; otherwise 200 with the event count, with or without the store client |

## Left out

- Store queries, authentication, redirects, `localStorage`, `fetch` and rendering are I/O. Their results are parameters (rows, the stored code, the upstream response, failure flags); query errors are modelled only where a page's own state depends on them (the scouting form's load and submit, the route's upserts).
- The `teamInfo` lookup of team names and logos on the leaderboard is display data with no logic of its own.
- The leaderboard's `setMetric(list[0])` side effect inside `numericMetrics` only picks the default selection; `Leaderboard.SortKey` models the fallback it feeds.
- JsValue.ToNumber: the JavaScript string-to-number grammar is a parameter (`StrCoercion`); only `Number("") == 0` is assumed where needed.
- Text.ParseInt10: numbers beyond double precision are not modelled; the result is the exact integer.
- Strings are sequences of Unicode scalar values, not of UTF-16 code units: lengths and slices count characters, so a string holding a character above U+FFFF is shorter here than in JavaScript.
- StringOrder.Less: orders by scalar value, which differs from JavaScript's code-unit order between a character above U+FFFF and one in U+E000-U+FFFF.
- StringOrder.SortedListing: sorts by StringOrder.Less, so it shares that difference.
- Header.Initials: takes the first two characters where `slice(0, 2)` takes two code units, so an address starting with a character above U+FFFF (an emoji) gets that character plus the next one here, and only the emoji in the page.
- EventsRoute.Get: the upstream body is a list of events; a body that is not an array makes `events.map` throw, and the route's unhandled failure is not modelled.
- Leaderboard.TeamAverages: uses exact real division; the `toFixed(2)` rounding and IEEE floating point are not modelled. The same holds for Analysis.Avg.
- Leaderboard.Entry and Analysis.Record: a metrics value that is an array or another non-object JSON value is not modelled; metrics are a map or null.
- CsvExport.MetricsCell: `JSON.stringify` is opaque; its output text is an input of the model.
- Text.Lower and Text.Upper: ASCII case mapping only; Unicode case mapping is not modelled.
- FormSchema.AddField: the fresh id (`crypto.randomUUID`) is a parameter.
- The form builder's `save` (an upsert of the whole list) and its season input are store calls with no logic beyond what `LoadedFields` reads back.
- FormSchema.LoadedFields: elements of a stored array that are not well-formed fields are not modelled.
- The admin page's `deleteLast24h` and `deleteAll` are store deletes with date arithmetic.
- Collector.Collector.Submit: the scout id (`auth.getUser`) and the insert outcome are parameters.
- The check-in page's `chooseEvent` (imports, `localStorage`, profile update, navigation) is I/O.

## Findings

| source | as written | input that shows it | evidently intended | confidence | as-written member | corrected member |
|---|---|---|---|---|---|---|
| src/app/me/page.tsx:71-73 | the current-user patch reads the `meId`/`meEmail` state of the render that started `load`, which is still "" on the first load although lines 28-29 have just set it | the first load for a signed-in user "u1" with email "a@x", one match record by "u1" and no profile: the board labels the row "u1" | the signed-in user without a profile is labelled by their email | not executed | ScoutBoard.LoadAsWritten, ScoutBoard.FirstLoadMissesOwnLabel | ScoutBoard.Load |

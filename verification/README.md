# Movie search widget: search and pagination model

This project models the core of a small browser widget. The widget searches a
movie-database HTTP API (OMDb), pages through the results ten at a time and
shows each result as a card. All of its logic lives in `index.js`. The model
keeps that logic and drops the DOM and the network:

- **Query builder** (`Query`): `buildUrl` as a fold of `URLSearchParams.set`
  over the parameter object. It starts from the API key and keeps only
  values that are neither `''` nor `null`/`undefined`.
- **Request construction** (`Search.Request`): the empty-query guard,
  trimming, the default page, and the optional `type` and `y` filters.
- **Response envelope** (`Search.Envelope`, `Search.Response`): an
  exception, a failure envelope, or a success envelope. `Search.SearchMovies`
  computes what each of them does to the view and to the pagination state
  (`currentPage`, `totalPages`, `lastQuery`).
- **View** (`Render`): a record holding the results area (a message or the
  cards), the "Page p of n" label, the two button states and the status
  line. `showMessage`, `renderResults` and the per-item card projection are
  pure functions into it.
- **Controller** (`Controller`): `doSearch` and the previous/next handlers
  are guarded transitions. `Step` applies one user event. `Run` applies a
  whole trace from the initial widget. `Inv` is proved to hold in every
  reachable state.
- **Text** (`Text`): JavaScript's `trim` over the ECMA-262 whitespace and
  line-terminator characters, and the decimal rendering inside the label.
  The label is proved to identify both of its numbers.

Things the model represents explicitly:

- The network's answer is a parameter of each step.
- A click on a disabled button reaches no handler. This is how browsers
  treat disabled buttons, and `Controller.Dispatch` models it explicitly.
- Absent `Poster`, `imdbID` and `Error` fields are written as `""`. The code
  only tests their truthiness, so both read the same.
- `totalResults` is `Some(n)` when the field is a non-empty numeric string
  and `None` when it is missing or empty. A JSON number `0` would be falsy
  and fall back to the list length, so `Some(0)` stands only for the string
  `"0"`.

Behaviours of the code that a reader might not expect:

- A failed search resets the *display*: "Page 0 of 0" and both buttons
  disabled. A failure envelope (index.js:113-117), or an exception raised
  before the response is decoded (index.js:108-110, caught at 132-135),
  leaves `currentPage`, `totalPages` and `lastQuery` as they were. Only the
  disabled attribute keeps navigation from resuming on the stale state
  (`StaleGuardsAfterFailure`).
- `doSearch` sets `currentPage` to 1 before calling `searchMovies`
  (index.js:141). This happens even when the query is blank or the request
  fails.
- The count falls back to the list length only when `totalResults` is
  missing or empty, not when it is unparseable. A reported `"0"` is used as
  is (`ZeroCountBeatsList`).
- A success with an empty list shows "No results found.". The label and the
  buttons are then rewritten from the requested page and the count
  (index.js:124-127), so the label can read "Page 1 of 3" with next enabled
  (`EmptySuccessStillPaginates`).
- The blank-query guard shows the prompt but never touches the status line
  (index.js:95-98). Every path that sends a request clears the status line.
- `currentPage` need not lie within `[1, totalPages]`. A success for page p
  records p whatever count the server reports. What always holds instead is
  the weaker `Controller.Inv`: an enabled button implies its handler's
  guard passes.

## Model

| member | source | states |
|---|---|---|
| Values.OrUndefined | index.js:143-145 | `s \|\| undefined` is truthy exactly when `s` is non-empty, and then carries `s` |
| Text.TrimStart | index.js:95 | removing leading whitespace never lengthens the string and leaves it not starting with whitespace |
| Text.TrimStartSpec | index.js:95 | what is removed from the front is whitespace only, and the rest is the input's own suffix |
| Text.TrimEnd | index.js:95 | removing trailing whitespace never lengthens the string and leaves it not ending with whitespace |
| Text.TrimEndSpec | index.js:95 | what is removed from the back is whitespace only, and the rest is the input's own prefix |
| Text.Trim | index.js:103 | `query.trim()` has no whitespace at either end and is no longer than the query |
| Text.TrimSlice | index.js:103 | `query.trim()` is a contiguous slice of the query with only whitespace on either side of it |
| Text.BlankIffAllWhitespace | index.js:95 | a query fails the guard exactly when every character is ECMA-262 whitespace |
| Text.TrimIdempotent | index.js:103 | trimming is idempotent: the trimmed query sent as `s` has nothing more to trim |
| Text.NatRoundTrip | index.js:125 | reading back the decimal rendering of a page number gives that number |
| Text.IntToString | index.js:125 | a rendered integer is non-empty, contains no space, and starts with '-' exactly when negative |
| Text.IntToStringInjective | index.js:125 | distinct integers render as distinct text |
| Text.PageTextInjective | index.js:125 | "Page p of n" determines both p and n |
| Query.Without | index.js:25 | dropping a key removes it and leaves every other key's value and the keys' distinctness intact |
| Query.Set | index.js:25 | `searchParams.set(k, v)` makes `k` read `v`, leaves every other key as it was, keeps keys distinct and keeps the first key first |
| Query.SetAll | index.js:24-26 | after the loop, each key reads the last kept value given for it, or its earlier value when none was kept |
| Query.BuildUrl | index.js:21-28 | the URL has the OMDb base, distinct keys, and `apikey` as its first parameter |
| Query.BuildUrlLookup | index.js:21-27 | a key reads the last kept value given for it; otherwise `apikey` reads the static key and any other key is absent |
| Query.LastKeptSpec | index.js:25 | the last kept value for a key is the value at the last index whose value passes the `'' / null` test; there is none exactly when no value for that key passes |
| Query.BuildUrlContents | index.js:21-27 | `apikey` is always present; any other key is present exactly when some value for it is neither `''` nor null/undefined, and it holds the last such value |
| Render.ShowMessage | index.js:49-53 | the results area holds only the message; the label reads "Page 0 of 0"; both buttons are disabled; the status line is untouched |
| Render.ProjectCard | index.js:62-87 | the image is the poster iff the poster is non-empty and not "N/A", otherwise the placeholder; the subtitle is "{Year} • {Type}"; the card links to its IMDb page iff `imdbID` is non-empty |
| Render.ProjectCards | index.js:62-90 | one card per item, in order, each the projection of its item |
| Render.RenderResults | index.js:56-91 | an empty list shows "No results found." (and so "Page 0 of 0" with disabled buttons); otherwise the cards replace the results area and nothing else changes |
| Search.PageOf | index.js:100 | the requested page is `options.page`, or 1 when that is missing or 0; it is never 0 |
| Search.Request | index.js:95-106 | no URL is fetched iff the query is missing or blank once trimmed; a fetched URL goes to the OMDb base with `apikey` first and distinct keys |
| Search.TotalResults | index.js:121 | a reported count is used whenever there is one, even 0; the list's length is used only when no count is reported |
| Search.TotalPages | index.js:122 | the page count is the least number of ten-result pages holding all results: `pages*10 >= n` and `(pages-1)*10 < n` |
| Search.SearchMovies | index.js:94-137 | a missing or blank query shows the prompt and keeps the state; an exception shows the generic error; a failure envelope shows `Error` or "No results found."; these three paths show "Page 0 of 0", disable both buttons and keep the pagination state; every path that sends a request ends with the status line clear |
| Search.SuccessOutcome | index.js:119-130 | after a success for page p: the count falls back to the list length; `totalPages` is its ceiling over ten; the label reads "Page p of totalPages"; prev is disabled iff p <= 1 and next iff p >= totalPages; the cards or "No results found." are shown; `currentPage = p` and `lastQuery` is the untrimmed query |
| Search.SuccessForgetsPast | index.js:119-130 | a success leaves the same state and view whatever the state and view were before it |
| Search.SearchIdempotent | index.js:94-137 | repeating a search against the same answer leaves the same state and view |
| Search.RequestContents | index.js:95-106 | no request iff the query is missing or blank; otherwise the request carries `apikey`, `s` = the trimmed query, `page` = `options.page` or 1, `type` and `y` exactly when those options are truthy, and no other key |
| Search.ParamsContents | index.js:100-106 | the parameters of a request that passes the guard, key by key |
| Search.ParamsShape | index.js:103-105 | the parameter object holds `s` and `page`, then `type` and `y` only when given, with distinct keys and only values `buildUrl` keeps |
| Search.NamedParams | index.js:103-106 | the values the request carries for `apikey`, `s`, `page`, `type` and `y` |
| Search.OtherParams | index.js:103-106 | the request carries no key besides `apikey`, `s`, `page`, `type` and `y` |
| Search.RequestLookups | index.js:21-27 | with distinct keys whose values are all kept, the URL holds exactly those pairs plus the API key |
| Controller.Init | index.js:16-18 | the initial state is page 1 of 0 with an empty last query, and the hint of line 176 is shown with "Page 0 of 0" and both buttons disabled |
| Controller.FilterOptions | index.js:143-145 | handlers pass the page, and pass `type`/`year` only when the inputs are non-empty, with their values |
| Controller.OnEdit | index.js:140-146 | `doSearch` sets `currentPage` to 1, keeps `totalPages` and `lastQuery`, and searches the current query box for page 1 with the current filters |
| Controller.OnPrev | index.js:157-164 | the previous handler fires iff `currentPage > 1`, for `lastQuery` and page `currentPage-1` (at least 1), with the filters read now |
| Controller.OnNext | index.js:166-173 | the next handler fires iff `currentPage < totalPages`, for `lastQuery` and page `currentPage+1` (at most `totalPages`), with the filters read now |
| Controller.Dispatch | index.js:140-173 | an edit resets to page 1 and always calls `searchMovies` with the query box; a click changes no state and reaches its handler's call iff the button is enabled and the handler's guard passes; every call carries the current filters |
| Controller.Step | index.js:140-173 | a click stopped by its disabled button or its guard leaves the widget unchanged; an edit always ends on page 1; a step that fetches ends with the status line clear |
| Controller.InitInv | index.js:16-18 | the initial widget satisfies the invariant |
| Controller.StepInv | index.js:124-173 | every event keeps the invariant: the page is at least 1, an enabled button implies its handler's guard passes, the status line is clear, and a blank last query means nothing has succeeded yet |
| Controller.RunInv | index.js:140-173 | every widget reachable from the initial one by any trace of events and answers satisfies the invariant |
| Controller.PrevSends | index.js:157-164 | in a reachable state, clicking previous sends a request iff the button is enabled, and that request's query passes the empty-query guard |
| Controller.NextSends | index.js:166-173 | in a reachable state, clicking next sends a request iff the button is enabled, and that request's query passes the empty-query guard |
| Controller.PrevInRange | index.js:157-164 | in a reachable state, previous sends a request iff enabled, for page `currentPage-1 >= 1`, the trimmed last query and the current filters |
| Controller.NextInRange | index.js:166-173 | in a reachable state, next sends a request iff enabled, for page `currentPage+1 <= totalPages`, the trimmed last query and the current filters |
| Controller.EditGoesToFirstPage | index.js:140-146 | an edit sends nothing iff the query box is blank; otherwise it requests page 1 for the trimmed query; either way the widget ends on page 1 |
| Controller.BlankEditShowsPrompt | index.js:95-98 | a blank query shows the prompt with "Page 0 of 0" and both buttons disabled; the only state change is the reset to page 1 |
| Controller.StaleGuardsAfterFailure | index.js:113-117 | in every reachable widget with next enabled, a failure envelope answering a click on next keeps the state and disables both buttons, yet the next handler's guard (and the previous one's, if that button was enabled) would still pass |
| Scenarios.FirstPageOfTwelve | index.js:119-130 | "batman" with 120 results gives "Page 1 of 12", next enabled, previous disabled and ten cards |
| Scenarios.MovieNotFound | index.js:113-117 | a "Movie not found!" failure shows exactly that text, "Page 0 of 0" and both buttons disabled |
| Scenarios.EmptyQuery | index.js:95-98 | an empty query sends no request and shows "Please enter a movie title to search." |
| Scenarios.ServerError | index.js:132-136 | an exception shows "Request failed. Check console for details." as an error and clears the status line |
| Scenarios.PosterlessInertCard | index.js:66-87 | a poster of "N/A" with no `imdbID` gives the placeholder image and no link |
| Scenarios.EmptySuccessStillPaginates | index.js:124-127 | a success with an empty list keeps "No results found." but relabels to "Page 1 of 3" and enables next |
| Scenarios.ZeroCountBeatsList | index.js:121-122 | a reported count of "0" overrides ten listed items, giving "Page 1 of 0" with both buttons disabled |

## Left out

- Debounce (`debounce`, `setTimeout`, the 350 ms delay): timers are not modelled. Each event is one atomic step that runs the handler at once.
- Overlapping in-flight requests and stale responses overwriting newer ones: these are concurrency. A step takes one answer and completes.
- `fetch`, `res.ok` and `res.json()`: network and JSON parsing. A step takes the answer as a `Response`, which is either an exception (including a non-OK status) or a decoded envelope.
- `URL` construction, percent-encoding and `toString`: the URL library's work. A URL is its base plus an ordered list of key/value pairs, and parameter values are not stringified.
- `parseInt` on non-numeric text (NaN) and `Math.ceil` on fractions: the count is an optional natural number, and the ceiling is integer division.
- A `Search` field that is present but not an array, or an item whose `Title`, `Year` or `Type` is missing (rendered as "undefined"): envelopes and items are typed records.
- A query argument that is not a string (where `query.trim()` would throw outside the `try`): queries are optional strings.
- `console.error` and `window.open`: side effects only. A card records the URL it would open instead.
- DOM construction, class names, styling, the SVG of the placeholder and the "Searching…" markup: the view is a record, and the status line is a flag.
- Search.SearchMovies: an exception raised after line 122 is not modelled. A `null` entry in `Search` makes `renderResults` throw at line 66 once `totalPages` has been updated, so that catch path changes `totalPages`; the model's `Thrown` stands only for failures before the envelope is decoded.
- Pages and counts are unbounded integers, not JavaScript doubles: integers above 2^53 are not exact, and `${n}` switches to exponent notation from 1e21. `Text.IntToString`, `Text.IntToStringInjective` and `Text.PageTextInjective` are statements about unbounded integers, matching `${n}` only below 1e21.
- The markup's initial status line: the model assumes it starts empty, since that markup is not part of this model.

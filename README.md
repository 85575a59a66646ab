# Lottery history recorder and read API, modelled in Dafny

The system keeps a local copy of a lottery draw history. It has two halves.

- **The recorder** (`fetcher.py`) downloads pages of the upstream history feed and
  inserts every draw into a SQLite table `history`, keyed by the draw's `issue`.
  It makes one backfill pass over pages 1 to 50, then polls page 1 for ever.
- **The read API** (`server.py`, `GET /api/get_history`) answers reads with one page of
  that table. The greatest issue in the TEXT column's code-point order comes first, and the answer has the upstream feed's
  response shape: `list`, `pageNo`, `pageSize`, `totalPage`, `totalCount`.

The model turns the table into a map from issue to `(number, color)`. It models:

- the batch insert (`save_to_db`): a method on a `Store` class with a loop, proved against
  a prefix-recursive specification `Run`;
- the page extraction (`fetch_external_page`): a pure function;
- the engine (`start_recording_engine`): a method with its two loops, proved against the
  state machine `Drive` over the sequence of answers it receives;
- the read handler (`get_history_api`): a method with its formatting loop, proved against
  the function `Respond`.

The model also states the Python and SQLite behaviour these rely on:

- `str()` and `int()`, truthiness, iteration and `//`;
- the 64-bit parameter range of `sqlite3`;
- INSERT OR IGNORE and `total_changes`;
- the BINARY collation of a TEXT column;
- LIMIT and OFFSET.

Modules, one per file: `Wrappers` (Option), `Json` (a parsed response), `Python`,
`TextOrder` (the column's sort order), `History` (the table and `save_to_db`),
`Upstream` (`fetch_external_page`), `Recorder` (`start_recording_engine`) and
`Server` (`get_history_api`).

Three behaviours are modelled exactly as the code has them.

- **No retention cap.** Nothing in the code prunes the table, so it only grows (`Recorder.RowsNeverLost`).
- **The engine can stop.** The comment at fetcher.py:84 announces live recording "Forever". But
  `save_to_db` iterates its argument outside the `try`. A 200 answer whose `data.list` is
  `true` or a non-zero number is truthy and not iterable, so it raises `TypeError`. Nothing
  in `start_recording_engine` catches it, so the engine stops. This is the `Stopped` phase
  (`Recorder.TruthyScalarListStops`).
- **`new_count` is modelled as written.** The message at fetcher.py:67 reports it as the
  number of new records, but it tests the connection's cumulative
  `total_changes`, so it counts every converted item once anything has been inserted
  (`History.DuplicateCountedTwice`).

Three inputs are taken as parameters:

- The recorder's answers from upstream are an input sequence, one per request.
- Each read answers against a snapshot of the table: a map given as a parameter.
- The query string's `pageNo` and `pageSize` are `Option<string>`, None when absent.

## Model

| member | source | states |
|---|---|---|
| Python.NatText | server.py:78 | `str(n)` of a non-negative int is non-empty decimal digits with no leading zero |
| Python.IntText | server.py:78 | `str(n)` of any int starts with `-` or a digit and ends with a digit |
| Python.ParseIntText | fetcher.py:54 | `int(str(n)) == n` for every int n of at most 4300 digits; for a longer n, `int()` raises |
| Python.Int64FitsStrDigits | server.py:78 | every 64-bit int has at most 19 digits, so `str()` and `int()` of it never hit the 4300-digit limit |
| Python.IntTextInjective | fetcher.py:53 | distinct ints have distinct `str()`, so they never share an issue key |
| Python.Iterate | fetcher.py:51 | `for` visits exactly a list's elements; over a string or a dict it yields only strings; it raises on None, a bool or an int |
| Python.ReprPlainText | fetcher.py:53 | `repr()` of text without quotes, backslashes or control characters is that text between single quotes |
| Python.EscapePlain | fetcher.py:53 | `repr()` writes every character that needs no escape, other than the quote, as itself |
| Python.ReprListExample | fetcher.py:53 | an example: `str([7, 'a'])` is `[7, 'a']` |
| Python.StrIntIsText | fetcher.py:53 | an issue number sent as an int and the same number sent as its decimal text give the same key |
| Python.FloorDiv | server.py:90 | `a // b` is the floor quotient: `b*q <= a < b*q + b` for positive b, and the mirror image for negative b |
| Json.Lookup | fetcher.py:41 | `d.get(key)` finds a value exactly when some field has that key, and the value is that field's |
| TextOrder.LessIsStrictTotalOrder | fetcher.py:25 | the BINARY order on the TEXT `issue` column is irreflexive, asymmetric, transitive and total |
| TextOrder.NotChronological | server.py:67 | code-point order is not draw order: "1000" sorts before "999", and "None" after a digit key |
| TextOrder.Greatest | server.py:67 | the first issue of `ORDER BY issue DESC` is in the table and every other issue sorts before it |
| TextOrder.SortedDesc | server.py:67 | `ORDER BY issue DESC` lists each issue exactly once, each strictly after every later one |
| History.Convert | fetcher.py:52-63 | an item that converts is a dict, and its number fits the 64-bit INTEGER column |
| History.HugeIssueSkipped | fetcher.py:53-63 | an int `issueNumber` of more than 4300 digits makes `str()` raise, so the item is skipped |
| History.RunKeepsInt64Numbers | fetcher.py:51-63 | a save stores only 64-bit numbers, so a table holding only those keeps holding only those |
| History.TextItemsChangeNothing | fetcher.py:51-63 | string items never convert: they leave the table and both counts unchanged |
| History.TextOrDictListDiscarded | fetcher.py:48-63 | a non-empty string or dict in place of the list is iterated without raising, and nothing is saved or counted |
| History.Store.Open | fetcher.py:22-31 | `CREATE TABLE IF NOT EXISTS` keeps an existing table's rows |
| History.Store.Save | fetcher.py:46-65 | save_to_db raises exactly when its value is truthy and not iterable, and then changes nothing; otherwise the new table and `new_count` are those of `Run` over the visited items |
| History.FalsyItemsChangeNothing | fetcher.py:48 | a falsy value, including the empty list, leaves the table unchanged and counts nothing |
| History.StoredRowsKept | fetcher.py:58-61 | INSERT OR IGNORE never removes or overwrites a stored row |
| History.SavedKeys | fetcher.py:51-64 | after a save, the issues are the old ones plus `str(issueNumber)` of every item that converts |
| History.FirstItemWins | fetcher.py:51-61 | a row the save added comes from the first converting item with that issue; later duplicates are ignored |
| History.MalformedItemSkipped | fetcher.py:51-63 | an item whose conversion raises is passed over; the rest of the batch is processed exactly as without it |
| History.NewCountBounds | fetcher.py:50-62 | the rows added equal `total_changes`, and `new_count` lies between that and the number of converting items |
| History.KnownIssuesIgnored | fetcher.py:58-62 | a batch whose every converting issue is already stored changes nothing and counts nothing |
| History.SaveTwice | fetcher.py:51-62 | saving a batch a second time inserts and counts nothing |
| History.DuplicateCountedTwice | fetcher.py:62 | the same new item twice inserts one row and `total_changes` is 1, but `new_count` is 2 |
| History.WellFormedItem | fetcher.py:53-55 | an item with an int or decimal-text `number` in 64 bits and a string or absent `color` becomes the row `(str(issueNumber), number, color or '')` |
| History.MissingIssueIsNone | fetcher.py:53-63 | a missing `issueNumber` is no reason to skip: such an item converts exactly when its number and color do, and then its key is "None" |
| History.BadColorSkipped | fetcher.py:55-63 | an item whose `color` is a list, a dict or an int outside 64 bits cannot be bound, so it is skipped |
| History.BadNumberSkipped | fetcher.py:54-63 | an item whose `number` is missing, null, a list or dict, or text that `int()` rejects is skipped |
| Upstream.PageItems | fetcher.py:36-44 | a failed request, a non-200 status, an unparseable body or a document that is not an object yields `[]` |
| Upstream.NonObjectDocIsEmpty | fetcher.py:40-44 | a 200 answer whose document is None (an empty body), an array or a scalar yields `[]` |
| Upstream.FeedPageItems | fetcher.py:39-41 | a 200 answer `{"data": {"list": items}}` yields exactly `items` |
| Upstream.MissingListIsEmpty | fetcher.py:41 | a 200 answer without a `data` object, or whose `data` has no `list`, yields `[]` |
| Recorder.NextPage | fetcher.py:78-87 | a running engine fetches a page in 1..50; a stopped one fetches nothing |
| Recorder.Advance | fetcher.py:78-85 | a cycle leaves the engine in a reachable phase |
| Recorder.PhaseAfter | fetcher.py:78-85 | every phase after k cycles without an exception is reachable |
| Recorder.Cycle | fetcher.py:79-88 | one fetch-and-save keeps the engine in a reachable phase |
| Recorder.Drive | fetcher.py:70-91 | every run keeps the engine in a reachable phase |
| Recorder.RecordingEngine | fetcher.py:70-91 | the two loops send the requests and leave the table and phase that `Drive` gives for the answers; unless stopped, they use every answer |
| Recorder.OneCycle | fetcher.py:79-88 | one fetch and save appends its request and moves the engine one `Drive` step |
| Recorder.BackfillLoop | fetcher.py:78-82 | the backfill loop agrees with `Drive` on the answers it consumed, and on all answers if it stopped |
| Recorder.LiveLoop | fetcher.py:85-91 | the polling loop, started where the backfill ended, ends in the state `Drive` gives for all answers |
| Recorder.StoppedStays | fetcher.py:80-88 | after the exception that stops the engine, no further answer changes anything |
| Recorder.PhaseAfterIs | fetcher.py:78-85 | with no exception, cycle k < 50 backfills page k+1 and every later cycle is live |
| Recorder.RequestsFollowSchedule | fetcher.py:37-88 | request k is `RequestFor(ScheduledPage(k))`: the query `pageSize=20`, `pageNo=ScheduledPage(k)`, `typeId=1`; a running engine has answered every reply |
| Recorder.BackfillThenLive | fetcher.py:78-88 | the first 50 requests are for pages 1, 2, ..., 50 in increasing order, and every later request is for page 1 |
| Recorder.NoReturnToBackfill | fetcher.py:78-85 | once live or stopped, the engine never backfills again |
| Recorder.FailedFetchChangesNothing | fetcher.py:36-48 | a failed fetch, a non-200 status, an unparseable body or a non-object document costs one cycle and changes no row |
| Recorder.RowsNeverLost | fetcher.py:58-61 | no run of the engine removes or overwrites a stored row |
| Recorder.TruthyScalarListStops | fetcher.py:39-51 | any 200 answer whose `data.list` is `true` or a non-zero number, whatever its other fields, stops the engine and changes no row |
| Server.SortedRows | server.py:66-70 | the query returns one row per stored issue with its stored number and color, greatest issue in code-point order first |
| Server.RowOf | server.py:66-70 | every stored issue has a row in the sorted result |
| Server.Window | server.py:67-68 | LIMIT/OFFSET skips `offset` rows (0 when negative) and keeps at most `limit` (all when negative) |
| Server.FormatRows | server.py:74-81 | the `append` loop builds `Listing(rows)`: one entry `FormatRow(row)` per fetched row, in the rows' order |
| Server.Paginate | server.py:56-93 | for resolved numbers, the handler returns the specified answer |
| Server.GetHistory | server.py:46-96 | for query parameters, the handler returns the specified answer |
| Server.PagingRoundTrip | server.py:49-54 | absent parameters mean page 1 of 20, and present ones are read as written; one of more than 4300 digits resets both to 1 and 20 |
| Server.PagingFallback | server.py:49-54 | one parameter that `int()` rejects resets both to 1 and 20 |
| Server.RespondIsAnswer | server.py:49-56 | a query that spells out both numbers gets the answer for those numbers, or for page 1 of 20 when one has more than 4300 digits |
| Server.ResponseShape | server.py:56-96 | success exactly when pageSize != 0 and pageSize and offset fit 64 bits; then code 0, "Success", pageNo and pageSize echoed back, the table's size, and `totalCount // pageSize + 1` pages; otherwise code 500 and "Server Error: " + detail |
| Server.ZeroPageSizeIsServerError | server.py:49-96 | `pageSize=0` gives code 500 with the ZeroDivisionError text for every page number `int()` accepts; a page number it refuses gives the answer for page 1 of 20 |
| Server.TotalCountIndependentOfPage | server.py:62-91 | every successful answer has totalCount equal to the number of stored rows |
| Server.PageListing | server.py:56-81 | for positive numbers the list holds at most pageSize entries, formatted from the sorted rows starting at `(pageNo-1)*pageSize` |
| Server.WindowListing | server.py:66-81 | the same for any rows and any non-negative offset |
| Server.FormatRowFaithful | server.py:76-81 | for a 64-bit stored number, each entry holds issueNumber = issue and the stored color; number is text that `int()` reads back; premium equals number |
| Server.NewestPrefix | server.py:66-81 | entries carrying the issues of a prefix of the sorted rows are in descending order, all stored, and every other stored issue sorts before them |
| Server.FirstPageIsNewest | server.py:66-81 | page 1 of size k lists the min(k, total) greatest issues in descending order; every other issue sorts before all of them |
| Server.TotalPageExamples | server.py:90 | 1001 rows at 20 per page give 51 pages, 1000 also give 51, and 999 give 50 |
| Server.EveryRowOnAPage | server.py:56-90 | for a positive page size, the row at sorted position j is entry `j % size` of page `j // size + 1`, which is no later than totalPage |
| Server.PageOfRow | server.py:56-90 | the arithmetic behind that: the page's offset is at most j, and `j // size <= total // size` |
| Server.LastPageEmptyAtMultiple | server.py:66-90 | when totalCount is a multiple of pageSize, page totalPage succeeds and is empty |

The functions below have no contract of their own that says more than their
body. Each is specified by the lemmas and methods named next to it.

- `History.ColorCell` (fetcher.py:55-60): `History.WellFormedItem`, `History.BadColorSkipped`.
- `Json.Get` (fetcher.py:41-55): `History.WellFormedItem`, `History.MissingIssueIsNone`, `Upstream.FeedPageItems`, `Upstream.MissingListIsEmpty`.
- `Server.Response.Code` and `Server.Response.Msg` (server.py:83-96): `Server.ResponseShape`, `Server.ZeroPageSizeIsServerError`.
- `History.Visit` (fetcher.py:52-63): `History.StoredRowsKept`, `History.FirstItemWins`, `History.MalformedItemSkipped`, `History.DuplicateCountedTwice`.
- `History.Run` (fetcher.py:50-63): `History.Store.Save`, `History.SavedKeys`, `History.NewCountBounds`, `History.KnownIssuesIgnored`, `History.SaveTwice`, `History.RunKeepsInt64Numbers`.
- `History.Batch` (fetcher.py:48-51): `History.Store.Save`, `History.FalsyItemsChangeNothing`, `History.TextOrDictListDiscarded`.
- `Upstream.RequestFor` (fetcher.py:37): `Recorder.RequestsFollowSchedule`, `Recorder.BackfillThenLive`.
- `Python.ParseInt` (fetcher.py:54): `Python.ParseIntText`, `Server.PagingFallback`, `History.BadNumberSkipped`.
- `Python.Int` (fetcher.py:54): `History.WellFormedItem`, `History.BadNumberSkipped`.
- `Python.Str` and `Python.Repr` (fetcher.py:53): `Python.IntTextInjective`, `Python.ReprPlainText`, `Python.ReprListExample`, `Python.StrIntIsText`, `History.MissingIssueIsNone`.
- `Python.Truthy` (fetcher.py:48): `History.FalsyItemsChangeNothing`, `History.TextOrDictListDiscarded`, `Recorder.TruthyScalarListStops`.
- `Server.ResolvePaging` (server.py:49-54): `Server.PagingRoundTrip`, `Server.PagingFallback`.
- `Server.Answer` (server.py:56-96): `Server.Paginate`, `Server.ResponseShape`, `Server.PageListing`, `Server.FirstPageIsNewest`, `Server.LastPageEmptyAtMultiple`.
- `Server.Respond` (server.py:46-96): `Server.GetHistory`, `Server.RespondIsAnswer`, `Server.ResponseShape`, `Server.TotalCountIndependentOfPage`.
- `Server.FormatRow` and `Server.Listing` (server.py:74-81): `Server.FormatRows`, `Server.FormatRowFaithful`, `Server.WindowListing`.

## Left out

- Server.SortedRows: "greatest first" is code-point order of the issue text, as SQLite sorts it. That is the newest draw first only while every issue is a digit string of the same length; "1000" sorts before "999", and the key "None" of an item without an issue number sorts after every digit key, so it heads every first page (`TextOrder.NotChronological`).

- Networking. aiohttp, the query URL and the 10 second timeout are out: an answer is an input (failed, or a status with a body that did or did not parse).
- Time and pauses. The `asyncio.sleep` pauses and the `created_at` timestamp are out. The timestamp is written but never read.
- Repetition and liveness. The `while True` loop is modelled over a finite sequence of answers; the run ends when they run out.
- Threads and the process. The background thread, the event-loop setup and Flask routing are out, as are `jsonify` and the HTML `home` page.
- Sharing. The recorder and the reader share the table; each read is modelled against one committed snapshot.
- Configuration. Probing the filesystem for `BASE_DIR` and the database path is out.
- SQLite failures. A connect, commit or close that fails is out; the store lives in memory.
- Logging. The `print` calls for logging are out.
- Json: floats (JSON numbers with a fraction or exponent) are not modelled. Neither is the last-one-wins rule for duplicate keys: an object's keys are taken as distinct.
- Python.ParseInt: Unicode decimal digits other than 0-9 are not accepted, while Python's `int()` accepts them.
- Python.Repr: non-ASCII characters that Python's `repr()` escapes as `\u`/`\U` (other than the Latin-1 ones modelled) are written as themselves.
- Python.IntText: `str()` of an int of more than 4300 digits raises; `IntText` gives the digits. The limit is modelled where it matters: `StrFits` in `History.Convert` and the digit count in `Python.ParseInt`.
- History.HugeIssueSkipped: an int of more than 4300 digits cannot reach save_to_db from the engine. The JSON decoder behind `resp.json()` reads integers with the same digit limit as `int()`, so such a body raises inside `fetch_external_page`, and that page yields `[]` (fetcher.py:40-44). The model takes the parsed body as given and does not model this. The lemma covers a direct call to save_to_db.
- Server.FormatRowFaithful: stated for 64-bit numbers only, because a SQLite INTEGER never holds more (`History.RunKeepsInt64Numbers`).
- Recorder.Cycle, Recorder.Drive, Recorder.Advance, Recorder.PhaseAfter: their own contracts state only that the phase stays reachable. What they compute is stated by the Recorder lemmas and by `RecordingEngine`.
- History.Store.Save: the SQLite connection and commit are out. The method is the loop over the visited items against the table.
- Server.PageListing, Server.FirstPageIsNewest, Server.EveryRowOnAPage, Server.LastPageEmptyAtMultiple: stated for the resolved page number and size. `Server.RespondIsAnswer` and `Server.PagingRoundTrip` connect them to a query string.

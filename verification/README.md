# TuFunda fetch core, modelled in Dafny

TuFunda is a small web application that downloads fundamental data about Chinese A-share
securities from the Tushare data service and writes one Excel workbook per security. A
browser page collects security codes and a date window. The server admits one background
task at a time and streams its progress to the page over a WebSocket.

This project models the deterministic core of that application as pure functions over
immutable data, and proves properties of it:

- **The fetch engine** (`app/services/fetcher.py`):
  - the global rate limiter, on an integer millisecond clock;
  - the process-wide market cache, with fill-once, clear and read-a-copy;
  - the per-endpoint query modes of `_api`;
  - the display relabelling of columns and the descending date sort;
  - per-security assembly in `_fetch_one`, with its summary line;
  - the workbook layout of `_save`: sheet groups in catalogue order, outer join or
    concatenation, sort-column choice, market sheets last;
  - the batch loop of `fetch`.
- **Task admission and life cycle** (`app/services/stock_service.py`):
  - the single-task rule of `start_task`;
  - the bounded event queue (5000) shared by the log handler and the progress callback;
  - the task's end in `run`, including the unguarded final `put_nowait`.
- **The progress socket** (`app/routers/ws.py`): one drain round as a pure step, and the
  round loop as a recursion over successive snapshots.
- **The token store** (`app/config.py`): the lenient reader, `get_token`, `save_token` and
  `mask_token`.
- **Request validation** (`app/models.py`): the field bounds, the date check and the range
  check of `QueryRequest`.
- **The page's code list** (`static/app.js`): `normalizeCode`, `addCode` and `removeCode`.

## Model structure

- **Tables.** Tables are positional: a header of labels and rows of cells. Renaming a column
  touches only the header, as `df.columns = [...]` does. A lookup by label reads the first
  column carrying that label.
- **Provider.** The Tushare provider is a function parameter from calls (endpoint name and
  keyword arguments) to replies: a table, `None`, or a raised exception.
- **Concurrency.** Worker threads run one security after another in list order. Blocks
  guarded by a lock are atomic steps.
- **Calendar.** The calendar is made of parameters: today's date, the default start date,
  and which strings `strptime` accepts.
- **Progress socket.** Each round's snapshot of the task (state, message, newly queued
  events) is a `Tick`. Sending a message appends it to the output.

Modules:

- `wrappers.dfy`: Option and Result.
- `text.dfy`: Python and JavaScript trimming, comma splitting, decimal rendering and string
  order.
- `tables.dfy`: data frames, renaming, sorting, concatenation and the outer join.
- `catalogue.dfy`: `INTERFACES`, the field-label maps and `SHEET_NAMES`.
- `upstream.dfy`: calls, replies and `_call`.
- `rate_limiter.dfy`: `RateLimiter`.
- `market.dfy`: `MarketFetcher`.
- `workbook.dfy`: `_save`.
- `stock_fetcher.dfy`: `_api`, `_fetch_one` and `fetch`.
- `events.dfy`: the event queue.
- `tasks.dfy`: `TaskManager` and `TaskState`.
- `drain.dfy`: `ws_progress`.
- `config.dfy`: the token store.
- `validation.dfy`: `QueryRequest`.
- `code_list.dfy`: the page's code list.

## Model

| member | source | states |
|---|---|---|
| RateLimit.NewLimiter | app/services/fetcher.py:123-126 | a fresh limiter has the given interval and no previous admission (time 0) |
| RateLimit.Wait | app/services/fetcher.py:128-133 | the new admission time is at least the old one plus the interval and at least the clock reading; it equals the reading when enough time has passed, and old + interval otherwise |
| RateLimit.Admissions | app/services/fetcher.py:128-133 | over a run of calls, every admission is no earlier than its clock reading, and consecutive admissions are at least one interval apart |
| RateLimit.AdmissionsSpread | app/services/fetcher.py:128-133 | admissions i and j are at least (j - i) intervals apart |
| Upstream.CallTable | app/services/fetcher.py:241-248 | `_call` yields the provider's table, or an empty table when the provider returned None or raised |
| Tables.Rename | app/services/fetcher.py:250-254 | rows are untouched; each column gets its mapped label, or keeps its own when unmapped; emptiness and shape are kept |
| Tables.RenameUnmapped | app/services/fetcher.py:253 | a header the mapping does not mention comes back unchanged (identity default) |
| Tables.RenameFinds | app/services/fetcher.py:253 | a mapped column is found under its display label after the rename |
| Tables.SortRowsDesc | app/services/fetcher.py:259 | the result is sorted descending on the column and is a permutation of the input rows |
| Tables.SortBy | app/services/fetcher.py:256-260 | with the column present, rows are permuted into descending order; without it, the table is unchanged |
| Tables.Concat | app/services/fetcher.py:412 | stacking two tables gives a well-formed table with the rows of both and exactly the labels of either |
| Tables.ConcatFront | app/services/fetcher.py:412 | row j of the first table is row j of the stack and reads the same value under every label of the union header (missing where that table lacks the label) |
| Tables.ConcatBack | app/services/fetcher.py:412 | row j of the second table is row |a| + j of the stack and reads the same value under every label of the union header |
| Tables.ConcatAll | app/services/fetcher.py:412 | stacking a group gives a well-formed table holding as many rows as its members together |
| Tables.ConcatAllColumns | app/services/fetcher.py:412 | a label is in the stacked header iff some member carries it |
| Tables.ConcatAllCells | app/services/fetcher.py:412 | row i of member k sits after all rows of the members before it and reads, under every label of the union header, what it held in member k |
| Tables.KeyProblem | app/services/fetcher.py:410 | collecting the join columns raises nothing iff every join column resolves in both tables, and any error names one of the join columns |
| Tables.KeyProblemFirst | app/services/fetcher.py:410 | the error raised is the one for the first join column that fails to resolve in either table, the right table's error taking precedence over the left's |
| Tables.ResolvesAppend | app/services/fetcher.py:410 | a join column that resolves in the left header still resolves in the joined header, whose appended columns are never join columns |
| Tables.OuterJoin | app/services/fetcher.py:410 | succeeds iff every join column names exactly one column of each table; a failure carries the error that collecting the join columns raises (KeyProblem, pinned down by KeyProblemFirst); a result is well formed and starts with the left table's header |
| Tables.JoinKeys | app/services/fetcher.py:410 | the outer join's key set is exactly the union of the two sides' key sets |
| Tables.JoinAll | app/services/fetcher.py:407-410 | folding the merge over a group fails exactly when some table lacks a join column or carries one twice, and the error names a join column |
| Tables.JoinAllKeys | app/services/fetcher.py:407-410 | joining a whole group keeps exactly the keys found in any of its tables |
| Market.Prepare | app/services/fetcher.py:171 | `_sort(_rename(...))` keeps the rows as a multiset, relabels the header, and sorts on the trade date when present |
| Market.FetchShared | app/services/fetcher.py:164-177 | a non-empty cache makes no calls and no change; an empty one makes exactly the two index calls and stores each prepared index table only when its reply was non-empty |
| Market.FetchSharedLogs | app/services/fetcher.py:164-177 | from an empty cache, each index call logs its `_call` warning when the provider raised and its "✓" line with the row count when its table was stored, daily index first |
| Market.FetchSharedOnce | app/services/fetcher.py:164-177 | once the cache holds anything, a later fill is a no-op; if both replies were empty, the next fill calls the provider again |
| Market.ClearCache | app/services/fetcher.py:194-198 | the cleared cache is empty |
| Market.ClearThenFetch | app/services/fetcher.py:194-198 | after a clear, the next fill always makes the two index calls |
| Market.SwL1 | app/services/fetcher.py:202-214 | an industry is found iff the lookup returned a non-empty table with both columns and a non-blank first `l1_code`, and it is that first row's code and name; a raise or a missing column logs the warning with the exception's text, and nothing else logs |
| Market.GetSheets | app/services/fetcher.py:179-192 | a copy of the cache plus `sw_daily` only when an industry code was found and its table is non-empty; the calls are the lookup and then, if found, the industry table; the not-found warning or the industry "✓" line is logged |
| Market.GetSheetsNonEmpty | app/services/fetcher.py:179-192 | every table handed to a security is non-empty when the cache holds only non-empty tables |
| Stocks.InterfacesOmitIndexDaily | app/services/fetcher.py:30-56 | no catalogue entry is the benchmark index's endpoint |
| Stocks.ApiCall | app/services/fetcher.py:379-389 | a call is made exactly for a known mode, to the entry's endpoint |
| Stocks.ApiCallArguments | app/services/fetcher.py:384-389 | "simple" passes code and fields; "date" passes code, window and fields; "market" passes window and fields without a code |
| Stocks.Api | app/services/fetcher.py:379-392 | an unknown mode yields an empty table |
| Stocks.FetchedFromReply | app/services/fetcher.py:353-357 | a table is kept, relabelled, exactly when the mode is known and the reply is a non-empty table; None, a raise and an unknown mode keep nothing |
| Stocks.Fetched | app/services/fetcher.py:354-357 | only non-empty tables are kept |
| Stocks.CatalogueCalls | app/services/fetcher.py:353-354 | at most one call per catalogue entry, each to a catalogue endpoint |
| Stocks.CatalogueCallsAppend | app/services/fetcher.py:353-354 | the calls of a catalogue in two parts are the first part's calls followed by the second's |
| Stocks.CatalogueCallsOne | app/services/fetcher.py:379-389 | one entry calls its endpoint once, with its mode's arguments, when the mode is known, and makes no call otherwise |
| Stocks.ApiWarningsRaised | app/services/fetcher.py:390-391 | one warning per catalogue call that raised, in order, each naming the security and the endpoint and carrying the exception's text |
| Stocks.Collect | app/services/fetcher.py:353-358 | kept tables are non-empty; nothing is kept iff there are no summary items iff the row count is zero |
| Stocks.CollectCount | app/services/fetcher.py:372 | the row count is the sum of the rows of the datasets kept, a dataset rebound by a later entry of the same name not counted |
| Stocks.CollectInfoLength | app/services/fetcher.py:355-358 | there is one summary item per entry whose table came back non-empty |
| Stocks.CollectInfoAt | app/services/fetcher.py:353-358 | an entry whose table came back non-empty contributes `sheet[3:]:rows` at the position counted by the entries before it that got one: catalogue order, repeats included |
| Stocks.CollectNamed | app/services/fetcher.py:353-358 | only catalogue endpoints are kept |
| Stocks.CollectHas | app/services/fetcher.py:355-357 | an endpoint whose table came back non-empty is kept under its name |
| Stocks.CollectKeeps | app/services/fetcher.py:355-357 | with unique names, an endpoint is kept iff its table came back non-empty, and the kept table is that table |
| Stocks.Progress | app/services/fetcher.py:370 | the `[done/total]` tag contains no space |
| Stocks.ProgressParts | app/services/fetcher.py:370 | the tag is "[", the done count in decimal, "/", the total in decimal, "]" |
| Text.NatToStringRoundTrip | app/services/fetcher.py:370 | the decimal rendering of a count reads back as the same number |
| Stocks.Detail | app/services/fetcher.py:373-376 | the detail starts with the progress tag |
| Stocks.DetailWords | app/services/fetcher.py:373-376 | read back word by word: tag plus "无数据" for no items; tag plus all items for 1 to 5; tag plus the first five, the fifth with "...", for more |
| Stocks.FetchOne | app/services/fetcher.py:348-377 | a file is written iff the market side did not raise and there is catalogue data or a market sheet; the data, items and count are the catalogue loop's; the calls are the catalogue's then the market side's; the logs are the `_api` warnings, the market side's lines and the save failure, in that order |
| Stocks.FetchOneAvoids | app/services/fetcher.py:353-360 | a security calls no endpoint outside the catalogue and the two industry lookups |
| Stocks.CodeEventsStatuses | app/services/stock_service.py:55-59 | a security's records carry the status `[done+1/total]` iff the callback is on and it returned, and no status otherwise |
| Stocks.Assemble | app/services/fetcher.py:327-341 | successes and failures add up to the list's length, the failures being the securities that raised; at most one file per success |
| Stocks.StreamLines | app/services/fetcher.py:327-341 | the records of security k (its logs, then status and "✓" line, or the "✗" line) appear together, after those of the securities before it, numbered after the ones before it that returned |
| Stocks.AssembleProgress | app/services/stock_service.py:55-59 | with the callback on, the batch's statuses count `[done+1/total]` up to `[done+ok/total]`, one per success, in order; without it there are none |
| Stocks.BlocksStatuses | app/services/stock_service.py:55-59 | each security's records carry exactly the status it reports |
| Stocks.ReportedCounts | app/services/fetcher.py:368-370 | the counter moves by one per security that returned, so the reported statuses are consecutive |
| Stocks.StoredKeys | app/services/fetcher.py:332-341 | the codes with a stored result are exactly those of the securities that returned; a raised one stores nothing |
| Stocks.StoredLast | app/services/fetcher.py:333-336 | a code's stored result is that of its last occurrence, when that occurrence returned |
| Stocks.AllCallsAvoid | app/services/fetcher.py:327-331 | a call no security makes is absent from the batch trace |
| Stocks.OrDefault | app/services/fetcher.py:299-300 | a missing or empty date falls back to the default; any other is kept |
| Stocks.RunBatchShared | app/services/fetcher.py:317-319 | the cache is what the shared fill left, its lines come first; a raising fill ends the batch with nothing but the fill's calls and lines, and no security fetched |
| Stocks.RunBatchCounts | app/services/fetcher.py:325-345 | without a shared-fill raise, ok + fail equals the list length; the pool has min(n, 8) workers; at least one record per security precedes the three summary lines, which come last |
| Stocks.RunBatchResults | app/services/fetcher.py:332-341 | the results are keyed by exactly the codes whose fetch returned |
| Stocks.OutcomesAvoid | app/services/fetcher.py:327-331 | no security of a batch calls an endpoint outside the catalogue and industry lookups |
| Stocks.SharedIndexDaily | app/services/fetcher.py:164-172 | the shared fill requests the benchmark index once from an empty cache and never from a filled one |
| Stocks.RunBatchIndexDaily | app/services/fetcher.py:317-319 | a batch asks for the benchmark index once from an empty cache, never from a filled one |
| Stocks.RunBatchProgress | app/services/stock_service.py:55-59 | with the callback on, a batch's statuses are `[1/n]` … `[ok/n]` for a list of n codes: the shared-fill and summary lines carry none |
| Stocks.Fetch | app/services/fetcher.py:286-346 | a malformed end date (checked first) or start date raises the calendar's error for that date; otherwise the five banner lines come first; an empty list returns no results after the banner, with no call; otherwise the batch follows the banner |
| Stocks.FetchCounts | app/services/fetcher.py:294-346 | a returned fetch accounts for every listed code as a success or a failure |
| Stocks.FetchSummary | app/services/fetcher.py:306-345 | a returned fetch over a non-empty list logs at least banner, one record per code and summary, the summary's three lines last |
| Stocks.FetchProgress | app/services/fetcher.py:306-341 | with the callback on, the statuses of a fetch are `[1/n]` … `[ok/n]`, n being the list's length |
| Stocks.IndexDailyOnce | app/services/fetcher.py:317-319 | when both dates parse, the fetch succeeds and requests the benchmark index exactly once if the cache is empty and there is a code, never otherwise |
| Text.Trim | static/app.js:25 | the result has no edge whitespace and is empty iff the input is all whitespace |
| Text.TrimSlice | static/app.js:25 | the result is a slice of the input whose surroundings are all whitespace: only edge whitespace is removed |
| Text.TrimIdempotent | app/services/fetcher.py:295 | stripping twice gives the same as once |
| Text.JoinSplit | app/services/fetcher.py:295 | re-joining the pieces of a split on the same separator gives back the input |
| Text.SplitJoin | app/services/fetcher.py:295 | splitting a join of separator-free pieces gives back the pieces |
| Text.ParseCodes | app/services/fetcher.py:295 | every parsed code is non-empty, stripped and comma-free; the list is empty iff the input holds only commas and whitespace |
| Text.ParseCodesSingle | app/services/fetcher.py:295 | a comma-free request gives its stripped text as the one code, or no code when that is blank |
| Text.ParseCodesAppend | app/services/fetcher.py:295 | the codes of `a + "," + b` are those of a followed by those of b |
| Text.ParseCodesJoin | app/services/fetcher.py:295 | joining stripped, comma-free, non-empty codes with commas and parsing the result gives back the codes |
| Text.AllBlankIff | app/services/stock_service.py:101-103 | the parsed code list is empty iff the input holds only commas and whitespace |
| Text.GroupedDigits | app/services/fetcher.py:338 | `{n:,}` without its commas is the plain decimal rendering, and below 1000 it has no comma |
| Workbook.Groups | app/services/fetcher.py:396-399 | every sheet group holds at least one dataset |
| Workbook.GroupsFollowCatalogue | app/services/fetcher.py:396-399 | the groups are the present datasets' sheets in order of first appearance in the catalogue, each with its datasets in catalogue order |
| Workbook.TablesForMeansPresent | app/services/fetcher.py:397-399 | a sheet with a present dataset is among the groups |
| Workbook.MergeGroup | app/services/fetcher.py:405-412 | one dataset is written as is; several under a sheet name without "日线" are stacked into a well-formed table with all their rows; under a "日线" name the outer join on (股票代码, 交易日期) succeeds iff every dataset has both columns, each exactly once, and keeps exactly the keys of all of them; a failure's text is the `KeyError` or not-unique `ValueError` text of one of the two columns |
| Workbook.MergeGroupCells | app/services/fetcher.py:411-412 | in a stacked sheet, row i of dataset k follows the rows of the datasets before it and reads the same value under every label |
| Workbook.SortColumn | app/services/fetcher.py:414-417 | the first of 交易日期, 公告日期, 报告期 present in the header; none iff none is present |
| Workbook.SortSheet | app/services/fetcher.py:414-417 | rows are permuted into descending order on the chosen column, and the sort raises iff that label names two columns; with no candidate column the table is unchanged |
| Workbook.WriteSheet | app/services/fetcher.py:404-419 | a sheet is written under its group's name exactly when the merge succeeds, else the merge's error |
| Workbook.WriteAll | app/services/fetcher.py:403-419 | the sheets written are the leading successes, in order; the first failure stops the writer and is reported |
| Workbook.WriteGroups | app/services/fetcher.py:403-419 | the same, for the catalogue groups |
| Workbook.MarketSheetsFrom | app/services/fetcher.py:421-424 | at most one sheet per `SHEET_NAMES` entry, each non-empty; none iff no listed table is present and non-empty |
| Workbook.Save | app/services/fetcher.py:394-424 | the catalogue sheets come first; market sheets follow only if no merge raised; a raise leaves the sheets written so far; a workbook with no sheet fails with openpyxl's "At least one sheet must be visible" on close, replacing any merge or sort error |
| Workbook.SaveFirstGroupRaises | app/services/fetcher.py:403-419 | when the first sheet group's merge or sort raises, nothing is written and the save fails with the closing writer's error, not the merge's or the sort's |
| Workbook.ReplaceDots | app/services/fetcher.py:402 | every "." of the code becomes "_", and nothing else changes |
| Workbook.FileName | app/services/fetcher.py:402 | the name is the code with dots made underscores, "_", the date, then ".xlsx" |
| Events.Offer | app/services/stock_service.py:111-118 | below 5000 queued items the event is appended; at 5000 it is dropped; the queue never loses what it held |
| Events.PutNowait | app/services/stock_service.py:135 | a bare put appends below capacity and raises (empty text) at capacity |
| Events.Emit | app/services/stock_service.py:22-26 | a log record is appended as a log event below capacity and dropped silently at capacity |
| Events.OfferAllPrefix | app/services/stock_service.py:22-26 | offering a run of events appends exactly its longest prefix that fits, in order, and never exceeds capacity |
| Tasks.StartTask | app/services/stock_service.py:92-106 | a running task refuses with the "already running" error; an all-blank code list refuses with the empty-list error; either way the current task is unchanged; otherwise a fresh running task with progress 0, total = number of parsed codes, empty queue and files becomes current |
| Tasks.StartTaskSingle | app/services/stock_service.py:94-96 | after an accepted start, every further start is refused and leaves the task in place |
| Tasks.StartTaskJoined | app/services/stock_service.py:101-105 | a request listing n clean codes joined by commas starts a task with total n, and parses back to those codes |
| Tasks.ProgressCb | app/services/stock_service.py:108-118 | the counters become (done, total), exactly one status event is offered, and nothing else changes |
| Tasks.Logged | app/services/stock_service.py:22-26 | below capacity the queue gains the log record at its end; at capacity it is unchanged; no other field changes |
| Tasks.ApplyAll | app/services/stock_service.py:55-59 | feeding the fetch's events changes only counters and queue |
| Tasks.ApplyAllQueue | app/services/stock_service.py:108-118 | the queue receives the events in order, as many as fit |
| Tasks.ApplyAllProgress | app/services/stock_service.py:108-110 | the counters after a run are those of its last status event, and are untouched by a run with none |
| Tasks.Fail | app/services/stock_service.py:136-142 | state "error" with message str(e); an error event is offered (dropped when full); nothing else changes |
| Tasks.Finish | app/services/stock_service.py:132-135 | with room in the queue: files set, state "completed", "查询完成", completion event appended; with a full queue the put raises and the task ends as "error" with an empty message |
| Tasks.Conclude | app/services/stock_service.py:120-142 | the task always leaves "running" and keeps its id; a setup or fetch exception takes the error path; a returned fetch feeds its records then finishes |
| Tasks.ConcludeCompletes | app/services/stock_service.py:129-135 | a returned fetch whose records fit in the empty queue completes with the last status's counters and the files, the queue holding every record and then the completion event |
| Tasks.ConcludeOverflow | app/services/stock_service.py:129-142 | a returned fetch queuing 5000 records or more fills the queue with its first 5000, the completion put raises, and the task ends as "error" with an empty message and no terminal event |
| Tasks.ConcludeRaised | app/services/stock_service.py:136-142 | a fetch raising after queuing records ends as "error" with the exception's text, its error event after those records |
| Tasks.ConcludeAllFetched | app/services/stock_service.py:120-135 | a returned batch whose statuses count to `[n/n]` completes at n/n with the files when its records fit, and otherwise ends as "error" with an empty message |
| Tasks.RunEnds | app/services/stock_service.py:120-135 | a run whose fetch returns with every code fetched completes at n/n, n the number of codes, when its records fit the queue, and ends as "error" with an empty message when they fill it |
| Drain.FirstTerminal | app/routers/ws.py:37-41 | the index of the first complete/error event, none before it |
| Drain.Final | app/routers/ws.py:44-49 | the synthesised event is terminal, "complete" iff the snapshot is "completed", carrying the task's message |
| Drain.DrainRound | app/routers/ws.py:24-53 | a round removes at most 50 events from the head and leaves the rest in order; what it sends is a prefix of them, all of them unless it closed; with nothing drained it sends the synthesised event iff the snapshot is not "running" |
| Drain.DrainRoundCloses | app/routers/ws.py:36-51 | a round closes iff it drained a terminal event, or found the task ended with nothing drained; a closing round ends with its only terminal message, an open one sends none |
| Drain.Stream | app/routers/ws.py:24-53 | the loop runs at most one round per snapshot; a synthesised message only ever ends a closed stream |
| Drain.StreamTerminal | app/routers/ws.py:37-51 | a closed stream has sent exactly one terminal message, the last; an open one none |
| Drain.StreamKeeps | app/routers/ws.py:29-34 | while the socket stays open, what was sent plus what is left is exactly the queue plus everything queued since |
| Drain.StreamFifo | app/routers/ws.py:29-41 | the messages forwarded from the queue are a prefix, in FIFO order, of what was queued up to the last round |
| Drain.StreamEnds | app/routers/ws.py:43-53 | once the task has ended and queues nothing more, the socket closes within ceil(n/50)+1 rounds |
| Drain.Connect | app/routers/ws.py:17-21 | no task, or another task's id, gets exactly one "任务不存在" error and a close; otherwise the rounds run on the task's queue |
| Config.ReadConfig | app/config.py:9-15 | a missing file, an I/O error or bad JSON reads as the empty object; a parsed document is returned as is |
| Config.GetToken | app/config.py:22-23 | the document's "token" entry or None; a non-object document raises |
| Config.SaveToken | app/config.py:26-29 | only "token" is set; every other key of the document is preserved; a non-object document raises |
| Config.SaveThenGet | app/config.py:22-29 | after a save, get returns that token, and saving it again changes nothing |
| Config.EmptyStore | app/config.py:9-15 | a missing or malformed file gives no token, and a save creates a document holding just the token |
| Config.MaskToken | app/config.py:32-38 | "" for None or ""; "****" for lengths 1 to 8; otherwise same length, first and last four kept, every middle character '*' |
| Config.MaskHides | app/config.py:32-38 | two tokens with the same length and the same four-character ends mask alike; all short tokens mask alike |
| Config.MaskTwice | app/config.py:38 | masking a long token twice gives the same as once |
| Validation.ValidateDate | app/models.py:14-23 | None passes unchanged; a present date passes unchanged iff it parses, else the format error |
| Validation.ValidateDateRange | app/models.py:25-29 | refused iff both dates are non-empty and the start is after the end in string order |
| Validation.RangeOrder | app/models.py:27 | equal dates pass; of two different dates exactly one order passes |
| Validation.CodesProblems | app/models.py:9 | `codes` is required and at most 5000 characters |
| Validation.YearsProblems | app/models.py:12 | `years` defaults to 3 and must lie in [1, 30] |
| Validation.DateProblems | app/models.py:14-23 | a date field reports a problem iff its check fails |
| Validation.Validate | app/models.py:8-29 | accepted iff every field bound holds, both dates pass and the range is not reversed; the accepted request carries the defaulted years; a refusal lists one to four problems |
| Validation.OnlyRangeLeft | app/models.py:8-29 | with good fields, the only possible refusal is the reversed range |
| CodeList.AsciiUpper | static/app.js:25 | no lower-case ASCII letter is left; each one becomes the capital at the same alphabet position; every other character stays |
| CodeList.AsciiUpperFixes | static/app.js:25 | upper-casing leaves a string alone iff it has no lower-case letter, and upper-casing twice is upper-casing once |
| CodeList.Exchange | static/app.js:31 | "SH" iff the first digit is 6 or 9, else "SZ" |
| CodeList.NormalizeCode | static/app.js:24-34 | null for blank input; a full code comes back as is; six digits get their exchange; anything else is null; every result matches `^\d{6}\.(SH|SZ)$` |
| CodeList.NormalizeIdempotent | static/app.js:24-34 | normalising a normalised code changes nothing |
| CodeList.AddCode | static/app.js:36-51 | invalid input leaves list and input box alone; a listed code leaves the list unchanged; a new code is appended at the end; the list stays duplicate-free |
| CodeList.IndexOf | static/app.js:54 | the first position holding the code, or -1 iff absent |
| CodeList.RemoveCode | static/app.js:53-59 | an absent code leaves the list unchanged; otherwise its first occurrence is cut out and the rest keep their order |
| CodeList.RemoveKeepsDistinct | static/app.js:53-59 | on a duplicate-free list, the code is gone afterwards and the list stays duplicate-free |
| CodeList.AddThenRemove | static/app.js:36-59 | removing a code just added gives back the original list |

## Left out

- **I/O.** Excel writing (`ExcelWriter`, `to_excel`), `mkdir`, the JSON file's read and
  write, and `_collect_files` are not modelled. What reading the config finds is a
  parameter. So is the list of files a finished task records. A workbook is modelled as the
  sheets the writer would receive. One effect of closing the writer is modelled: saving a
  workbook with no sheet raises openpyxl's "At least one sheet must be visible", and that
  error replaces one raised inside the `with` block. The file such a save leaves on disk is
  not modelled.
- **Config errors.** The exceptions the token store lets through (`UnicodeDecodeError`,
  `AttributeError`, `TypeError`) are named by their class. Their messages are not modelled.
- **Concurrency.** Threads, locks and `as_completed` ordering are not modelled: securities
  finish in list order and lock-guarded blocks are atomic. Also out:
  - the race where `progress_cb` reads `self.done` outside the lock;
  - the socket reading `state.message` after its snapshot (the message is taken from the
    same tick).
- **Clocks.** `time.time`, `time.sleep` and `asyncio.sleep` become an integer millisecond
  clock and "next round". A sleep is taken to wake exactly on time. The elapsed time the
  summary prints is a parameter.
- **Rate limiter use.** The limiter's decisions are modelled, but the limiter is not
  threaded through every provider call, since a call's result does not depend on when it
  was made.
- **Calendar.** `datetime.now`, `timedelta`, `strptime` and the day count become parameters:
  today, the default start date, which strings parse, the text of the `ValueError` for one
  that does not, and the day count. `uuid4` becomes a fresh-id parameter.
- **Log records.** Every record the task's logger queues is modelled, in source order: the
  banner, the shared fill's lines and warnings, each security's `_api` warnings, industry
  lookup warning, industry or not-found line and save-failure line, the "✓"/"✗" line, and
  the summary. The logging formatter's `HH:MM:SS | ` timestamp prefix is not modelled: a
  record's text is its message.
- **pandas.**
  - The `_x`/`_y` suffixes the outer join gives clashing non-key columns are not modelled.
  - The outer join's row order is not modelled. pandas sorts the result on the join keys;
    the model lists the left rows (each expanded by its matches) and then the right-only
    rows. Only the joined header, the row widths and the set of keys are stated.
  - Dtype and NaN semantics are not modelled: values compare as strings and missing cells
    sort last.
  - `sort_values` stability is not promised. The model sorts stably, but only
    sortedness and permutation are stated.
  - `reset_index` is not modelled.
  - Two pandas exceptions are modelled: `sort_values` on a label that names two columns
    (in the shared fill it ends the fetch, in the industry table it ends the security as a
    failure, in the writer it is a save failure), and the outer join's
    `KeyError` for an absent join column or not-unique `ValueError` for a repeated one, in
    pandas' order (column by column, right table first; a save failure). Other pandas
    exceptions are not modelled.
- **Labels.** The display-label maps (`FIELD_MAP`, `MARKET_FIELD_MAP`, `SW_FIELD_MAP`) are
  declared, but the fetch functions take the relabelling as a parameter. Task runs pass
  the program's own labels.
- Market.SwL1: a missing `l1_code` cell (NaN) counts as no industry found. The program's
  truthiness test would accept NaN and query the industry table with it. A missing
  `l1_name` cell shows as "None" rather than "nan".
- Tasks.RunQuery (the task run for the program's own catalogue) carries no contract of its
  own. `Tasks.RunEnds` states its end for any catalogue and labels, `RunQuery` being the
  instance with the program's own.
- **Page code.** DOM rendering, the page's `fetch` and WebSocket handlers, date formatting
  and the percentage display are not modelled. Upper-casing covers ASCII only: JavaScript
  also maps a few non-ASCII letters to ASCII ones (`ſ` to `S`). Such letters make no valid
  code here.
- **Transport.** The HTTP endpoints (`app/routers/query.py`, including its path checks) and
  application bootstrap (`app/main.py`) are not part of this model. WebSocket
  accept/send/close are appends to an output list. A client disconnect is not modelled.
- **Validation.** pydantic's type coercion of request fields (numbers given as strings, and
  so on) is not modelled: the body's fields arrive already typed. Error messages are
  modelled as problem kinds, with the validators' own texts where they raise them.
- **JSON.** The JSON round trip of the token file (`json.dumps` followed by `json.loads`) is
  taken to return the document written.

# trinoli, modelled in Dafny

trinoli answers the Trino client REST protocol on top of DuckDB. A client
POSTs a SQL statement to `/v1/statement` and gets back a `QueryResults`
document. The document holds the first page of rows, and, when the page came
back full, a `nextUri`. The client GETs that URI for the next page.

This project models the request pipeline of the Go server (`server.go`,
`internal/rows2json.go`, `internal/model.go`) and the pagination logic of the
Python prototype (`main.py`). The database is an oracle.

The pipeline, module by module:

- `Pattern` and `Dispatch` model the statement dispatcher. Three
  case-insensitive commands (`SHOW CATALOGS`, `SHOW SCHEMAS FROM c`,
  `SHOW TABLES FROM c.s`) are rewritten into `information_schema` queries, and
  any other text runs as given.
  - The anchored regular expressions are matched by a greedy scanner.
  - The scanner is proved sound and complete with respect to a declarative
    reading: the text can be cut into one piece per pattern element.
- `Server` models:
  - the page query `SELECT * FROM (q) LIMIT l OFFSET o`;
  - the continuation cursor and next address;
  - the error and success envelopes;
  - `doQueryInternal`, `doQuery`, and the POST and GET handlers.
- `Rows` models `RowsToJson`. Each column gets a nullable decode kind, picked
  by priority from what its scan type converts to. Rows are scanned in order,
  and the first scan error aborts the whole read.
- `Wire` holds the protocol documents of `internal/model.go`. `FailureInfo` and
  `StageStats` are finite trees.
- `Decimal` models `strconv.Atoi` and `strconv.Itoa` on 64-bit `int`,
  including the error text, and the wrap-around of `int` addition.
- `Url` models `url.Values` with `Get`, `Set` and `Encode` (keys sorted),
  `URL.String`, and `url.ParseQuery`, which reads a query string back.
- `Prototype` models `main.py`: the same page-full rule, except that the next
  limit doubles, and a fixed `/fetch` address.
- `Lexico`, `Text`, `Table` and `Wrappers` are small supporting modules:
  string order, reading text from its right end, the rows a `LIMIT`/`OFFSET`
  window keeps, and `Option`/`Result`.

Behaviour of the code that the model keeps as written:

- The success envelope always carries a `nextUri`. It is the empty string when
  there is no next page (server.go:63-71).
- Every error envelope has `errorCode` 400. This holds even when the HTTP status
  is 500 because no connection could be had (server.go:50, 88).
- The decode kind is recomputed for every row (internal/rows2json.go:26-41).
  `Rows.RowsToJson` does this too, and is proved equal to `Rows.Materialize`,
  which computes the kinds once.
- A database NULL becomes a wrapper with `valid = false` and a zero payload. It
  does not become a bare null.
- `server.go:98` takes `(columns, data, err)` from `RowsToJson`, but
  `internal/rows2json.go:16` returns `([]byte, error)`. The model follows the
  caller:
  - the materializer returns a `Page` of column headers and the cell matrix;
  - each column header is the column type's name and database type name.
- The `query` written into the next address is the text that ran. For a
  listing command that is the rewrite. Dispatching a rewrite again leaves it
  unchanged, so a continuation resumes the same statement.
- With `limit = 0`, an empty page is "full", so the next address repeats the
  same offset (`Server.NextPage`).

## Model

| member | source | states |
|---|---|---|
| `Pattern.Match` | server.go:31-33 | the scanner returns one capture per identifier group, and every capture is a `[0-9A-Za-z_-]+` identifier |
| `Pattern.MatchSound` | server.go:31-33 | whatever the scanner accepts can be cut into one piece per pattern element, with the same captures |
| `Pattern.MatchComplete` | server.go:31-33 | any cut of the text along a pattern is found by the scanner, with that cut's captures |
| `Pattern.MatchIff` | server.go:31-33 | the scanner accepts with captures `caps` exactly when the pattern matches the text with those captures |
| `Dispatch.Dispatch` | server.go:128-157 | text that is not rewritten is passed through unchanged; a rewritten text is one of the three listing queries for identifier arguments |
| `Dispatch.RewrittenIffRecognized` | server.go:128-157 | the dispatcher rewrites exactly the texts one of the three patterns matches; everything else is executed verbatim |
| `Dispatch.PatternsExclusive` | server.go:129-147 | no text matches two of the three patterns, so trying them in order loses nothing |
| `Dispatch.ShowCatalogsRewritten` | server.go:129-132 | `\s* show \s+ catalogs \s*` in any ASCII case and spacing runs exactly the catalog listing |
| `Dispatch.ShowSchemasRewritten` | server.go:134-140 | `SHOW SCHEMAS FROM c` in any case and spacing runs the schema listing with `c` between the quotes |
| `Dispatch.ShowTablesRewritten` | server.go:141-146 | `SHOW TABLES FROM c.s` runs the table listing with `c` and then `s` in their quotes |
| `Dispatch.TablesSplitUnique` | server.go:33 | a text matches the tables pattern with at most one pair of captures: the split at the `.` is unique |
| `Dispatch.SchemasLiteralIntact` | server.go:136-138 | the schema listing holds exactly two quotes, the ones around the catalog, which sits between them unchanged |
| `Dispatch.TablesLiteralsIntact` | server.go:142-145 | the table listing holds exactly four quotes, around the catalog and the schema, which sit between them unchanged |
| `Dispatch.DispatchIdempotent` | server.go:151-157 | dispatching the text the dispatcher chose runs it unchanged: a rewrite is never itself a command |
| `Rows.KindOf` | internal/rows2json.go:29-40 | the decode kind is string if the scan type converts to string, else float, else integer, else boolean, else string, each case an if-and-only-if |
| `Rows.KindIsFirstConverting` | internal/rows2json.go:29-40 | the chosen kind is the first of string, float, integer, boolean that the scan type converts to, or string when none does |
| `Rows.Decode` | internal/rows2json.go:31-39 | a NULL always decodes, into an invalid cell of the column's kind; a value that decodes gives a valid cell of that kind; only a value can fail |
| `Rows.NullIsInvalid` | internal/rows2json.go:31-39 | a database NULL comes out as the zero, invalid wrapper of its column's kind, whatever that kind is |
| `Rows.DecodePrefix` | internal/rows2json.go:43-46 | decoding stops at the first column whose conversion fails, reporting that column's index and name; otherwise every column's cell is its value decoded |
| `Rows.ScanRow` | internal/rows2json.go:43-46 | a row whose width differs from the number of destinations fails with an arity error; a scanned row has one cell per column |
| `Rows.ScanAllRows` | internal/rows2json.go:26-49 | all rows scan exactly when each does, the result holding their cells in engine order; a failure is the first failing row's error |
| `Rows.ScanAllStopsAtFailure` | internal/rows2json.go:43-46 | once a row fails to scan, later rows do not change the outcome |
| `Rows.MaterializeShape` | internal/rows2json.go:23-48 | a page has one header per column, one row per engine row in order, one cell per column, each of its column's kind and decoded from the value at that place |
| `Rows.MaterializeFailure` | internal/rows2json.go:17-46 | a failure is the column-types error, or the scan error of the first failing row; no partial result |
| `Rows.MaterializeSucceeds` | internal/rows2json.go:16-52 | with readable column types, the read succeeds exactly when every row scans |
| `Rows.NoRowsEmptyData` | internal/rows2json.go:24 | no rows give an empty matrix, not a missing one |
| `Rows.ScanErrorText` | internal/rows2json.go:43-46 | the error text of a failed scan is never empty |
| `Rows.Scan` | internal/rows2json.go:43 | the scanning loop computes the row scan |
| `Rows.ChooseKinds` | internal/rows2json.go:27-41 | the per-row loop picks each column's kind from its scan type |
| `Rows.RowsToJson` | internal/rows2json.go:16-52 | the loop computes the materialized page: as many rows as the engine yields, each as wide as the header |
| `Server.WrapLimitOffset` | server.go:84 | the page query starts with `SELECT * FROM (` and ends with the offset's digits |
| `Server.UnwrapOfWrap` | server.go:84 | reading the page query back from its right end gives the query, limit and offset it was built from, whatever the query contains |
| `Server.WrapInjective` | server.go:84 | two page queries are equal only for the same query, limit and offset |
| `Server.NextPage` | server.go:104-107 | there is a next page exactly when the row count equals the limit; it keeps the limit, and the new offset is in the `int64` range and congruent to offset + limit modulo 2^64 (the plain sum when it fits) |
| `Server.NextUri` | server.go:103-115 | the next address exists iff the page is full. It is `https` on the external host with the request's path. `query` is the text that ran. `query`, `limit` and `offset` each hold exactly one value: the text, the printed limit and the printed advanced offset, which re-parse to those numbers. Every other parameter is kept |
| `Server.CursorQueryReads` | server.go:105-108 | after the three `Set` calls, `query` reads back as given, `limit` and `offset` parse back to their numbers, each of the three holds exactly the one value set, and every other parameter is kept |
| `Server.CursorQueryPlain` | server.go:105-108 | setting the cursor's three parameters keeps the parameter set free of text that would need escaping, provided the query text holds no `&` or `;` |
| `Server.ErrorEnvelope` | server.go:37-60 | an error document carries the message and error code 400 and leaves every other error field unset; it has no next address, columns, rows, warnings or update fields, and zero stats |
| `Server.NextUriText` | server.go:63-66 | the `nextUri` text is empty exactly when there is no next address |
| `Server.SuccessEnvelope` | server.go:62-80 | a success document has no error, the given columns and rows, zero stats, no id, info or cancel address, warnings or update fields, and a `nextUri` that is present always and empty exactly when there is no next address |
| `Server.ReadEnvelopes` | server.go:37-80 | a client reads an error document back as its message and code 400, and a success document back as its columns, rows and next address |
| `Server.DoQueryInternal` | server.go:82-126 | the status is 500 iff no connection, 200 iff no error, else 400. A connection, a successful run and a successful read give 200. Every error says 400. The error message is passed on verbatim: the connection error with 500, the engine's error or the row reader's error with 400. The engine runs exactly the page query, if anything. A 200 answer is the success document of the materialized rows and their next address |
| `Server.DoQuery` | server.go:151-157 | what runs is the page query of the dispatched text; text matching no pattern runs as given, and a recognized listing command is answered exactly as its rewrite would be, so the next address carries the rewritten query |
| `Server.PostStatement` | server.go:243-250 | an unreadable body answers 400 and runs nothing; otherwise the body runs with limit 1024 and offset 0 |
| `Server.GetStatement` | server.go:251-264 | a bad `limit` answers 400 with its parse error before `offset` is looked at; a bad `offset` answers 400; neither runs anything; when both parse, the answer is that of the `query` parameter at that limit and offset |
| `Server.CommandNeverExecuted` | server.go:129-147 | a listing command is never handed to the engine as typed; `SHOW CATALOGS` runs the catalog listing or nothing |
| `Server.ContinuationResumes` | server.go:103-115 | GETting the next address of a full page runs the same statement with the same limit at the advanced offset |
| `Server.NextUriReadsBack` | server.go:103-115 | the `nextUri` text, cut at its `?` and parsed again, gives the next address's parameters back, under the conditions of `Url.ParseOfEncode` |
| `Server.PagesCoverTable` | server.go:103-115 | following the next addresses over a table returns contiguous pages, all full but the last, the last ending at the table's end |
| `Server.PagesLastOffset` | server.go:103-115 | the last page of such a walk starts a whole number of limits after the first |
| `Server.PageCount` | server.go:104 | reading `n` rows takes `n / limit + 1` requests, so a multiple of the limit ends with an empty page |
| `Server.FiveRowsByTwo` | server.go:103-115 | five rows by two come in pages at offsets 0, 2 and 4, the last holding one row |
| `Decimal.Atoi` | server.go:252-260 | parsing succeeds iff the text is an optional sign and digits denoting an `int64`, with that value; failures name `Atoi` and the text; the empty text is a syntax error, a well-formed number is only ever a range error, and a malformed text shorter than 19 characters is a syntax error |
| `Decimal.AtoiOfItoa` | server.go:106-107 | parsing reads back every `int64` that printing writes |
| `Decimal.ItoaOfAtoi` | server.go:252-257 | printing a parsed canonical text gives the text back |
| `Decimal.AddInt64` | server.go:106 | `offset + limit` on Go `int` is the sum modulo 2^64 in the `int64` range, and the plain sum when that fits |
| `Decimal.Itoa` | server.go:106-107 | the printed text is canonical digits, with a leading minus exactly for negative numbers |
| `Decimal.NumErrorText` | server.go:252-254 | the error text of a failed parse is never empty |
| `Decimal.Quote` | server.go:252-254 | the parse error's text is quoted: it is wrapped in `"` and reads back as the text given |
| `Url.GetAfterSet` | server.go:105-108 | after `Set`, `Get` reads the new value at that key and the old value at any other key; `Set` adds only its key |
| `Url.Pairs` | server.go:109 | the encoded pairs are exactly the (key, value) pairs of the parameters |
| `Lexico.SortedKeys` | server.go:109 | `Encode`'s key order is strictly increasing and holds every key once |
| `Url.ToString` | server.go:63-66 | the rendered address starts with the scheme and `://` |
| `Url.ParseOfEncode` | server.go:109 | `url.ParseQuery` of what `Encode` wrote gives the same parameters back, when no key holds `&`, `=` or `;`, no value holds `&` or `;`, and no key has an empty list |
| `Url.QueryOfToString` | server.go:63-66 | the query part of a rendered address, parsed again, is the address's parameters, under the same conditions and with no `?` before the query |
| `Wire.DepthAtMostSize` | internal/model.go:28-36 | a failure tree is finite: its depth is at least 1 and at most its number of failures |
| `Wire.Size` | internal/model.go:28-36 | a failure's cause and each suppressed failure are strictly smaller than the failure |
| `Wire.StageDepthAtMostCount` | internal/model.go:56-73 | a stage tree is finite: its depth is at least 1 and at most its number of stages |
| `Wire.StageCount` | internal/model.go:56-73 | each sub-stage is strictly smaller than its stage |
| `Wire.KeysDistinct` | internal/model.go:3-117 | the JSON keys of every document type are pairwise distinct |
| `Prototype.PyNextUri` | main.py:147-157 | the next address is the `/fetch` route on `http://localhost:8000`, with `query` as the first parameter |
| `Prototype.FetchParamsOfNextUri` | main.py:147-157 | a next address reads back as its query, limit and offset, whatever the query holds |
| `Prototype.PyNextPage` | main.py:180-184 | there is a next page iff the row count equals the limit; it starts right after this page and asks for twice as many rows |
| `Prototype.DoublingCursor` | main.py:181 | from offset 0 and limit `L`, the `k`-th continuation asks for `L * 2^k` rows at offset `L * (2^k - 1)` |
| `Prototype.PyPagesCoverTable` | main.py:180-184 | following the next addresses over a table returns contiguous pages, all full but the last, the last ending at the table's end |
| `Prototype.PyPagesDouble` | main.py:181 | the `i`-th request of such a walk asks for `limit * 2^i` rows |
| `Prototype.ZipColumns` | main.py:175-178 | one column per name and type pair, in order, as many as the shorter list |
| `Prototype.ErrorResults` | main.py:166-173 | the error document carries the message and error code 400, every other error field unset, and no next address, columns or rows; the other fields keep their defaults: empty id and info address, zero stats, no cancel address, warnings or update fields |
| `Prototype.PyDoQuery` | main.py:160-189 | a parser or invalid-input error answers 400 with its message. Any other exception escapes unchanged: the one the statement raised, or else the one fetching the window raised. A 200 answer carries no error, zero stats, no id or update fields, the zipped columns, the fetched rows, and a next address iff the page is full, with doubled limit and advanced offset |
| `Prototype.RunQuery` | main.py:194-196 | POST runs the statement from offset 0 with limit 10 |
| `Prototype.Fetch` | main.py:199-201 | `/fetch` runs the caller's offset and limit unchanged |
| `Prototype.ContinuationFetchesNext` | main.py:180-184 | the next address of a full page reads back as the same query, twice the limit, right after the page, and fetching it answers the rows of that next window |

## Left out

- The database itself is not modelled: DuckDB, connections, cursors, `rel.limit` and `fetchall`. In their place is an oracle: a connection error, and what running a text gives.
- Connection pooling, request-context cancellation and the deferred `Close` calls have no effect in a sequential model.
- `openDB`, the DSN it assembles and the `duckdb.connect` configuration are library setup.
- The Echo router, CORS and the request logger are framework plumbing. So are `mustEnv`, `main`, and FastAPI's routing and parameter validation.
- JSON encoding is not modelled: `json.Marshal`, pydantic's `model_dump_json`, and the prototype handing that JSON text to `ORJSONResponse`, which encodes it once more as a string. The model stops at the document.
- Percent-escaping is not modelled: `Values.Encode`, `urlencode` and `URL.String` are written without it. URL parts other than scheme, host, path and query are left out.
- Url.ToString: its own contract fixes only the scheme prefix. Only the query part is read back (`Url.QueryOfToString`). The scheme, host and path are not parsed again, and the GET handler is stated on parsed query parameters.
- Url.ParseOfEncode: the round trip needs parameters without `&`, `;` (and `=` in keys), because escaping is left out on both sides. Go escapes these characters, so its round trip has no such condition.
- Decimal.Quote: only `"` and `\` are escaped. `strconv.Quote`, which `%q` uses in scan errors and which `NumError` uses, also escapes control and non-printable characters.
- `reflect`'s `ConvertibleTo` is not modelled: each column's scan type is given as four booleans.
- `convertAssign` is not modelled: each raw value is given with what converting it to each payload type yields.
- `rows.Err()` is never consulted, so an iteration error ends the rows silently. `Rows.EngineRows` records it, and nothing reads it.
- `database/sql` also fails a scan of closed rows, or a scan before `Next`. The materializer cannot reach those paths, so they are left out.
- Float payloads and the `float32` percentages are opaque bit patterns, never computed with.
- `(?i)` is modelled as ASCII case folding. Go also folds some non-ASCII characters onto ASCII letters (U+017F onto `s`, U+212A onto `k`).
- The query text is logged before it runs. Logging is I/O and is left out.
- `LimitFactor` (2) is declared but never read by the server, so it has no effect.
- Rows.ScanErrorText: the contract states only that the text is non-empty. The wording itself is fixed text around the numbers, and no reader of it is modelled.
- Decimal.NumErrorText: the contract states only that the text is non-empty, for the same reason.

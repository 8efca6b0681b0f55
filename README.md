# easy-db-rust, modelled in Dafny

easy-db-rust is a small REST front end over SQLite. `EasyDB` opens
`<name>.db` and keeps a list of exposed tables. `create_table` adds a table
to that list after its name passes the identifier allow-list. Each exposed
table gets four handlers:

- GET lists rows, with filters, `_sort` and `_order`;
- POST inserts a JSON object;
- PUT updates the row with a given id;
- DELETE deletes the row with a given id.

GET, POST and PUT check the untrusted names; every handler builds SQL text
plus the values bound to its `?` marks. It then sends the statement to SQLite and maps the
engine's answer to a status code and a JSON body. `row_to_json` turns each
result row into a JSON object.

This project models that core of `src/lib.rs`.

- `Identifier` is the allow-list `is_valid_identifier`.
- `Sql` holds the four statement shapes the handlers build and their SQL
  text (`Render`). It also has a reader for that text (`Parse`), written
  for this model, that reads every allow-listed word in a name position as
  a name. For every statement whose names pass the allow-list (and, for an
  `INSERT`, that has at least one column), `Parse(Render(s)) == Some(s)`:
  read that way, no allowed name changes the shape of a statement. Whatever
  SQLite makes of the names, the text holds exactly one `?` per bound
  value, and none of `;`, `'`, `"`, `-` or `/`.
- `Query` is each handler up to the engine call, as a builder that returns
  the SQL and its parameters, or a 400 rejection. It follows the code's
  own form:
  - GET's filter loop with its early return, and its `push_str`s, are the
    methods `CollectFilters` and `BuildGet`;
  - POST's key loop with its early return at the first failing key is the
    method `BuildPost`; `FirstInvalid` is the key that loop stops at;
  - PUT's key loop and its `push` of the id are the method `BuildPut`;
  - each method is proved equal to a specification function
    (`GetQuery`, `PostQuery`, `PutQuery`);
  - DELETE is the function `DeleteQuery`, as its code is one `format!`.
- `Row` is `row_to_json`, a method with the enumerate loop. Storage cells
  are the five SQLite storage classes. `Map::insert` is an insert into an
  association list.
- `Storage` is the connection: a class whose `log` records every
  statement sent to the engine. The engine's answers come from an `Engine`
  value, functions of the statements run so far and the statement at
  hand. So every property holds whatever SQLite does.
- `Registry` is the `EasyDB` class, with `exposedTables` as a field that
  `CreateTable` appends to.
- `Handlers` holds the four handlers as methods over a `Connection`, and
  the mapping from engine answers to responses.

Two behaviours of the code are kept as written:

- An empty PUT object is not refused. The code builds
  `UPDATE t SET  WHERE id = ?` (src/lib.rs:348-353) and sends it to the
  engine. `Query.EmptyPut` reproduces that text.
- The handlers do not check that the table is exposed. Only the routes
  mounted in `run_server` (src/lib.rs:66-104) restrict the tables. The
  `Registry.Exposed*` lemmas state what holds for a table that is exposed.

## Model

| member | source | states |
|---|---|---|
| Identifier.IsValidIdentifier | src/lib.rs:15-17 | a name passes exactly when every character is an ASCII letter, an ASCII digit or `_` |
| Identifier.EmptyIsValid | src/lib.rs:15-17 | the empty name passes, vacuously |
| Identifier.RejectsSqlPunctuation | src/lib.rs:15-17 | a name holding any of `; -'"/*(),=?.` or a space anywhere is refused |
| Identifier.ValidConcat | src/lib.rs:15-17 | a concatenation passes exactly when both parts pass |
| Identifier.ValidHasNoOther | src/lib.rs:15-17 | a passing name holds no character outside the allow-list |
| Identifier.ExamplesAccepted | src/lib.rs:15-17 | `students` and `Col_9` pass |
| Identifier.ExamplesRejected | src/lib.rs:15-17 | `x;DROP`, `age--` and `o'brien` are refused |
| Registry.DbPath | src/lib.rs:33 | the database file is the name followed by exactly `.db` |
| Storage.Connection.Open | src/lib.rs:34 | opening fails exactly when the engine refuses the file, with its message; a new connection has sent nothing |
| Registry.EasyDb.constructor | src/lib.rs:36-40 | a new server has its name, its connection and no exposed tables |
| Registry.EasyDb.Init | src/lib.rs:32-41 | `init` opens `<name>.db`; it fails exactly when that open fails, with the engine's message, and otherwise the server has the name, a fresh connection to that file and no tables |
| Registry.EasyDb.CreateTable | src/lib.rs:44-58 | an invalid name gives `Invalid table name: <name>` with nothing sent and the tables unchanged; a valid name runs `CREATE TABLE IF NOT EXISTS t (columns)`; on success exactly that name is appended and earlier entries are kept; an engine error is returned with its message and changes no table; only allowed names are ever exposed |
| Storage.Connection.Execute | src/lib.rs:53 | the answer is the engine's answer for the statements sent so far, and the statement is appended to the log |
| Storage.Connection.QueryRows | src/lib.rs:245-258 | the rows or error are the engine's answer for the statements sent so far, and the read is appended to the log |
| Query.GetQuery | src/lib.rs:205-242 | the reference definition of what GET builds: `Invalid column name` unless every filter key passes, then `Invalid sort column` for a failing `_sort`, otherwise the `SELECT` over the filter columns with the sort order and the filter values bound in order; `BuildGet` is proved equal to it and the GET lemmas state its properties |
| Query.Reserved | src/lib.rs:212 | a key is reserved when it starts with `_` |
| Query.Filters | src/lib.rs:211-212 | the pairs whose key is not reserved, in the order given; `FiltersExact` states what it keeps |
| Query.SortOrder | src/lib.rs:229-241 | no order without `_sort`, a refusal for a failing `_sort`, otherwise the column with `SortDirection` of `_order`; `SortRejection` states its refusals |
| Query.ToUpper | src/lib.rs:238 | `to_uppercase`, character by character, on the characters listed under Left out |
| Query.CollectFilters | src/lib.rs:211-222 | the loop yields one `k = ?` and one text value per unreserved key, in order, when every such key passes; otherwise it yields `Invalid column name` |
| Query.InvalidFilterRejected | src/lib.rs:212-218 | one unreserved key that fails the allow-list, at any position, makes the whole key list fail it |
| Query.FilterKeysValid | src/lib.rs:211-218 | the filter columns pass exactly when every key that does not start with `_` passes |
| Query.FiltersExact | src/lib.rs:212 | a pair is a filter exactly when it is a query pair whose key does not start with `_` |
| Query.BuildGet | src/lib.rs:205-242 | the `push_str`s of `WHERE` and `ORDER BY`, with both early returns, build exactly `GetQuery` |
| Query.Lookup | src/lib.rs:229 | `get` finds nothing exactly when no pair has the key; what it finds is the value of a pair with that key |
| Query.SortDirection | src/lib.rs:236-240 | the direction is `DESC` exactly when `_order` is given and upper-cases to `DESC`; otherwise, absent included, it is `ASC` |
| Query.SortRejection | src/lib.rs:229-235 | the sort is refused, with `Invalid sort column`, exactly when `_sort` is given and fails the allow-list |
| Query.GetFilterRejection | src/lib.rs:211-218 | a GET is refused with `Invalid column name` exactly when some unreserved key fails the allow-list |
| Query.GetSortRejection | src/lib.rs:229-235 | a GET is refused with `Invalid sort column` exactly when every filter key passes and `_sort` is given and fails |
| Query.GetRejectionMessages | src/lib.rs:213-234 | a refused GET carries one of those two messages |
| Query.GetWhere | src/lib.rs:224-226 | `WHERE` follows the table name exactly when at least one key is a filter |
| Query.GetStatement | src/lib.rs:206-241 | an accepted GET reads back as a `SELECT` of the table with one condition per filter column, in order; it has `ORDER BY` exactly when `_sort` is given, with that column and the normalised direction; it holds one `?` per bound value and no quote, `;` or comment |
| Query.GetBindings | src/lib.rs:211-222 | every condition's column is an unreserved key bound to its own value, and every unreserved pair has a condition with its value at the same position |
| Query.ReservedIgnored | src/lib.rs:212 | adding a `_` key other than `_sort` and `_order`, at any position, changes nothing a GET builds |
| Query.OrderIgnoredWithoutSort | src/lib.rs:229-242 | without `_sort`, adding `_order` at any position changes nothing a GET builds |
| Query.FiltersSkip | src/lib.rs:212 | a pair with a `_` key is no filter wherever it stands |
| Query.LookupSkip | src/lib.rs:229 | a pair with another key, wherever it stands, does not change what `get` finds |
| Query.SortDescExamples | src/lib.rs:236-240 | `desc`, `DeSc` and `de` + long s + `c` all sort descending |
| Query.SortAscExamples | src/lib.rs:236-240 | `asc`, `descending` and an absent `_order` sort ascending |
| Query.FirstInvalid | src/lib.rs:289-296 | the key reported is the first one that fails the allow-list, and there is none exactly when all pass |
| Query.PostQuery | src/lib.rs:280-309 | the reference definition of what POST builds: the refusals in the handler's order, otherwise the `INSERT` of the keys with the values bound in key order; `BuildPost` is proved equal to it and `PostRejections`/`PostStatement` state its properties |
| Query.FirstInvalidAt | src/lib.rs:289-296 | a failing key with every earlier key passing is the one reported |
| Query.BuildPost | src/lib.rs:280-309 | the non-object and empty checks, the key loop with its early return at the first failing key, and the `INSERT` text with one `?` per key build exactly `PostQuery` |
| Query.PostRejections | src/lib.rs:280-326 | a non-object gives `Invalid JSON format`; an empty object gives `Empty JSON body`; otherwise the first failing key gives `Invalid column: <key>`; the body is accepted exactly when it is a non-empty object whose keys all pass |
| Query.PostStatement | src/lib.rs:298-309 | an accepted POST reads back as an `INSERT` of exactly the object's keys into the table; the numbers of columns, `?` marks and bound values are equal, and each value is bound at its key's position, with no quote, `;` or comment in the text |
| Query.BindValue | src/lib.rs:306-309 | one value coerced for binding; `BindingIsText` states what it gives |
| Query.BindingIsText | src/lib.rs:306-309 | a JSON string is bound as its raw contents and any other value as its JSON text, so `"20"` and `20`, `"null"` and `null`, `"true"` and `true` bind alike |
| Query.PutQuery | src/lib.rs:338-359 | the reference definition of what PUT builds: `Invalid JSON format` or `Invalid column name`, otherwise the `UPDATE` of the keys with the values in key order and the id last; `BuildPut` is proved equal to it and `PutRejections`/`PutStatement`/`EmptyPut` state its properties |
| Query.BuildPut | src/lib.rs:338-359 | the key loop with its early return, the `SET` list and the pushed id build exactly `PutQuery` |
| Query.PutRejections | src/lib.rs:338-385 | a non-object gives `Invalid JSON format`; `Invalid column name` comes exactly when some key fails; the object is accepted exactly when all keys pass, the empty one included |
| Query.PutStatement | src/lib.rs:348-359 | an accepted PUT reads back as an `UPDATE` of exactly the object's keys; the values are bound in key order and the id is last as text that reads back as the id, so there is one more value (and `?`) than `SET` assignment |
| Query.EmptyPut | src/lib.rs:348-359 | an empty object is accepted and builds `UPDATE t SET  WHERE id = ?` with only the id bound |
| Query.DeleteQuery | src/lib.rs:395-397 | what DELETE builds: the `DELETE` of the table with the id as its one integer value; `DeleteStatement` states its properties |
| Query.DeleteStatement | src/lib.rs:395-397 | a DELETE reads back as a `DELETE` of the table with one `?`, bound to the id as an integer |
| Registry.ExposedTableValid | src/lib.rs:46-55 | every exposed table passed the allow-list |
| Registry.ExposedGetSafe | src/lib.rs:206-241 | an accepted GET on an exposed table reads back as a `SELECT` of that table, with one `?` per value and inert text |
| Registry.ExposedPostSafe | src/lib.rs:298-304 | an accepted POST on an exposed table reads back as an `INSERT` of the object's keys into it, with one `?` per value and inert text |
| Registry.ExposedPutSafe | src/lib.rs:348-359 | an accepted PUT on an exposed table reads back as an `UPDATE` of the object's keys in it, with one `?` per value and inert text |
| Registry.ExposedDeleteSafe | src/lib.rs:395-397 | a DELETE on an exposed table reads back as a `DELETE` of it, with its one `?` bound and inert text |
| Strings.IntToStringRoundTrip | src/lib.rs:359 | `id.to_string()` is an integer literal that reads back as the id |
| Sql.Render | src/lib.rs:206-395 | the SQL text of the four statements, as the `format!`s and `push_str`s at lines 206, 225, 241, 299-304, 349-353 and 395 build it; `ParseRender`, `PlaceholderCount` and `RenderInert` state its properties |
| Sql.ParseRender | src/lib.rs:13-17 | every statement whose names pass the allow-list and that, if an `INSERT`, has at least one column, reads back under `Parse` as itself |
| Sql.RenderInjective | src/lib.rs:13-17 | two statements whose names pass the allow-list and that, if an `INSERT`, have at least one column, have the same SQL text exactly when they are the same statement |
| Sql.PlaceholderCount | src/lib.rs:219-220 | the text of a statement with allowed names holds as many `?` as the statement binds values |
| Sql.NoQuotesOrSeparators | src/lib.rs:13-17 | the text of a statement with allowed names holds no `;`, `'`, `"`, `-` or `/` |
| Sql.RenderInert | src/lib.rs:13-17 | the same, as one predicate on the text |
| Handlers.Refused | src/lib.rs:213-218 | a refusal is a 400 whose body is exactly `{"error": message}` |
| Handlers.WriteOutcome | src/lib.rs:361-379 | for UPDATE and DELETE, 0 rows gives 404 `Record not found`, 1 or more gives 200 with the success message, and an engine error gives 500 with the engine's message, each exactly in that case |
| Handlers.InsertOutcome | src/lib.rs:311-320 | any row count gives 201 `Record created`, and an engine error gives 500 with its message |
| Handlers.ListOutcome | src/lib.rs:255-269 | rows give 200 with exactly the array of collected rows, and an engine error gives 500 with its message; every response has an `error` key exactly when its code is 4xx or 5xx |
| Handlers.Collected | src/lib.rs:262 | `filter_map(.ok())`: the converted rows that were read, in order; `CollectedCount` and `CollectedFrom` state its properties |
| Handlers.CollectedCount | src/lib.rs:262 | the array holds one object per row that was read, and all rows exactly when no read failed |
| Handlers.CollectedFrom | src/lib.rs:262 | every object in the array is the conversion of a row that was read |
| Handlers.CollectedAt | src/lib.rs:262 | every row that was read is in the array, right after the converted rows read before it, so rows keep the engine's order and none is dropped or repeated |
| Handlers.HandleGet | src/lib.rs:200-270 | a refused GET answers 400 and sends nothing to the engine; an accepted one sends exactly the built `SELECT` and answers from the engine's reply, row by row through `RowToJson` |
| Handlers.HandlePost | src/lib.rs:273-327 | a refused POST answers 400 and sends nothing; an accepted one sends exactly the built `INSERT` and answers 201 or 500 |
| Handlers.HandlePut | src/lib.rs:330-386 | a refused PUT answers 400 and sends nothing; an accepted one sends exactly the built `UPDATE` and answers 404, 200 or 500 from the affected count |
| Handlers.HandleDelete | src/lib.rs:389-416 | a DELETE sends exactly `DELETE FROM t WHERE id = ?` with the id and answers 404, 200 or 500 from the affected count |
| Row.CellToJson | src/lib.rs:424-430 | the JSON value of one cell by storage class; `NullCells` and `Conflations` state its cases |
| Row.BlobDebug | src/lib.rs:429 | `{:?}` of a byte slice: the decimal bytes between brackets, separated by `, ` |
| Row.InsertField | src/lib.rs:431 | `Map::insert`; `InsertGet` and `InsertKeys` state its effect |
| Row.RowFields | src/lib.rs:423-432 | the fields after one insert per column, in column order; `RowKeys`, `RowLookup` and `RowDistinct` state its properties |
| Row.RowToJson | src/lib.rs:419-434 | the enumerate loop gives the object built by one insert per column, in column order |
| Row.InsertGet | src/lib.rs:431 | after `insert` the key holds the new value and every other key holds its old value |
| Row.InsertKeys | src/lib.rs:431 | `insert` keeps the keys; a new key is added after them |
| Row.RowKeys | src/lib.rs:423-433 | the object's keys are distinct and are exactly the row's column names |
| Row.RowLookup | src/lib.rs:423-431 | each name holds the value of its last column, so a repeated column name keeps the later value |
| Row.RowDistinct | src/lib.rs:423-433 | with distinct column names, the keys are the column names in order and each value is its cell's conversion |
| Row.NullCells | src/lib.rs:424-430 | `null` comes from a NULL cell or a non-finite double, and from nothing else |
| Row.Conflations | src/lib.rs:428-429 | text that is not UTF-8 becomes `""`, like an empty text; a blob becomes its byte-list text, such as `[1, 2]` |
| Json.ToText | src/lib.rs:308 | `to_string` of a JSON value: compact text with escaped strings |
| Json.ToTextExamples | src/lib.rs:308 | `to_string` of a JSON value is compact: `null`, `-20`, `[1,true]`, and an escaped quote inside a string |

## Left out

- Sql.ParseRender: the round trip is relative to the model's own reader `Parse`, which takes every allow-listed word as a name. How SQLite reads allow-listed words that it takes for something else is not modelled. `_sort=1` builds `ORDER BY 1`, which SQLite sorts by the first result column. A filter key `NULL` gives a literal comparison, and keys such as `AND`, `WHERE` or the empty key give text SQLite refuses (a 500).
- Routing, CORS, TCP bind and serve in `run_server` (src/lib.rs:61-116) are async HTTP plumbing. The handlers take the table name as given. Only the mounted routes keep a handler from seeing a table that is not exposed.
- The `Mutex` around the connection, and the panic of a poisoned lock, concern concurrency. The methods take the connection as their only shared state.
- SQLite itself is not modelled: how it filters and sorts, which text it accepts, and which constraints it checks. Its answers come from the `Engine` functions, and every property holds for all of them.
- Handlers.HandleGet: an error from `prepare` and one from `query_map` are one engine answer (`QueryFailed`). Both give 500 with the engine's message, as in the code.
- Rows whose read fails are modelled as failed steps and dropped, as `filter_map(.ok())` drops them. `get_ref(i).unwrap()` cannot fail for an index below the column count and is not modelled.
- The `EasyClient` methods (src/lib.rs:124-193) are reqwest network calls. The `println!` messages, the tests and the examples are left out too.
- Floating point: a finite double is given directly by the text serde_json prints for it. Which text that is, is not modelled.
- The UTF-8 decoder is a parameter, `decode`. Only its fallback to `""` on invalid bytes is modelled, not the decoding itself.
- Query.SortDirection: `to_uppercase` is modelled for ASCII letters and for the two non-ASCII characters that upper-case to a single ASCII letter: long s (to `S`) and dotless i (to `I`). Every other character is kept unchanged.
- Query.GetStatement: query parameters and JSON objects are sequences of pairs in whatever order is given. Every property holds for any order. The `HashMap` iteration order of the query string is not modelled, and neither is the sorted key order of serde_json's default map.
- Row.RowDistinct: as a consequence, the keys come out in column order. serde_json's default map lists the same keys sorted.
- Query.Lookup returns the first pair with the key. A `HashMap` holds at most one such pair, so this is the pair it finds.
- Extracting the path id as an `i32` happens in the framework: a path that is not an `i32` gets the framework's own rejection. The model takes an `Int32`.
- The column definitions given to `create_table` are the program's own trusted text. They are inserted unchecked, as in the code.

# drizzle-orm: geography codec, count builder and relational query front-end

This project models three pieces of drizzle-orm and proves properties about them.

- **Geography column codec** (SingleStore). The codec classifies a JavaScript value as a point, a line string or a polygon. It encodes the value as an SQL fragment, with the coordinates bound as parameters in order. It decodes the driver's well-known-text form (`POINT(a b)`, `LINESTRING(a b, c d)`, `POLYGON((...), (...))`) by splitting on fixed separators. This is the fixed-separator subset of OGC Simple Feature Access Part 1, clause 7.
  - Modules: `Geography` (the operations) and `GeographyProperties` (what they guarantee).
  - They rest on `Js`, which models JavaScript values, indexing that can throw, and `map` with a throwing callback.
  - They also rest on `JsStrings`, which models `indexOf`, `slice` with negative indices, `split` and `join`.
  - `getSQLType()` is the constant `Geography.SqlType` (`"text"`).
- **Count builder** (Postgres). One source and an optional filter give two fragments:
  - an embedded scalar sub-select `(select count(*)::int from S[ where F])`, which is the builder's own chunk list;
  - a top-level statement `select count(*)::int from S[ where F];`, which is run when the builder is awaited.

  Awaiting the builder resolves to the `count` field of the first row. `then`, `catch` and `finally` are functions from the settled outcome of that statement to a new outcome. Module: `PgCount`.
- **Relational query front-end** (SingleStore). Module: `RelationalQuery`.
  - `findMany` passes the configuration through (or uses `{}`). `findFirst` forces `limit: 1`.
  - `_getQuery` picks the planner by connection mode.
  - The prepared query's callback maps every raw row. It then returns all of them (`'many'`) or the first one or `undefined` (`'first'`).
  - The dialect's planners, `sqlToQuery`, the session and `mapRelationalRow` are function-typed parameters. Their code is not modelled.

The SQL fragment built by the `sql` template tag is a flat sequence of chunks. A chunk is `Lit(text)` or `Param(value)`. An interpolated fragment is inlined, a value becomes one parameter, and `undefined` adds nothing. Two fragments are compared through two views:
- `Text(f, show)`: the text, with each parameter shown by an arbitrary `show` function;
- `Params(f)`: the bound values in order.

Three behaviours of the code that a reader might not expect, which the model follows:
- The count builder caches nothing. Each `then` call runs `session.all(this.sql)` again (count.ts:54), and `catch` and `finally` go through `then`. So the model's `Then`, `Catch` and `Finally` are each stated over one run of the statement, `Count`.
- The encoder writes a `"` before `POINT(` (and before `LINESTRING(` and `POLYGON(`) and after the closing `)`. The decoder expects no quote. So the round-trip lemma `GeographyProperties.RoundTrip` decodes the encoder's text with those two quote characters removed.
- A decoder input is not rejected just because it has no `(`. `indexOf` then gives -1, so both the tag and the inner text are the input minus its last character. Such an input still fails with "Unexpected Geography type" unless that tag is a known one. For example, `"POINTS"` decodes as the one-number point `[Number("POINT")]` (`GeographyProperties.DecodeWithoutParenthesis`).

## Model

| member | source | states |
|---|---|---|
| Js.Index | drizzle-orm/src/singlestore-core/columns/geography.ts:122-138 | indexing throws exactly on `null`/`undefined`; an array gives its element in range and `undefined` past the end; any other value gives `undefined` |
| Js.MapOrFail | drizzle-orm/src/singlestore-core/columns/geography.ts:66-72 | `map` with a callback that may throw succeeds exactly when every callback does, with one result per element in order; otherwise it fails with the error of the first element whose callback throws |
| JsStrings.IndexOf | drizzle-orm/src/singlestore-core/columns/geography.ts:80 | the result is -1 when there is no occurrence, and otherwise the first index where the text occurs |
| JsStrings.IndexOfChar | drizzle-orm/src/singlestore-core/columns/geography.ts:80 | `indexOf` of one character is -1 exactly when the character is absent, and otherwise the index of that character with none before it |
| JsStrings.RelativeIndex | drizzle-orm/src/singlestore-core/columns/geography.ts:81-82 | a `slice` index counts from the end when negative and is clamped to the string's bounds |
| JsStrings.Split | drizzle-orm/src/singlestore-core/columns/geography.ts:104-116 | `split` gives at least one piece; the pieces joined with the separator are the input; no piece contains the separator |
| JsStrings.SplitCount | drizzle-orm/src/singlestore-core/columns/geography.ts:113-116 | `split` gives one more piece than there are occurrences of the separator |
| JsStrings.SplitJoin | drizzle-orm/src/singlestore-core/columns/geography.ts:104-116 | splitting a join gives the pieces back when no piece contains the separator's first character |
| Fragments.TextJoin | drizzle-orm/src/singlestore-core/columns/geography.ts:67 | `sql.join(fs, sql.raw(sep))` renders as the texts of `fs` joined with `sep` |
| Fragments.ParamsJoin | drizzle-orm/src/singlestore-core/columns/geography.ts:67 | `sql.join(fs, sql.raw(sep))` binds the values of each fragment in turn |
| Geography.IsPoint | drizzle-orm/src/singlestore-core/columns/geography.ts:118-120 | a point (length 2, a number first) is never also a line string or a polygon |
| Geography.IsLineString | drizzle-orm/src/singlestore-core/columns/geography.ts:122-129 | with a throw counting as "no", a line string is exactly an array whose first element is an array starting with a number; it is never also a polygon |
| Geography.IsPolygon | drizzle-orm/src/singlestore-core/columns/geography.ts:131-138 | with a throw counting as "no", a polygon is exactly one array level deeper than a line string |
| Geography.PointFragment | drizzle-orm/src/singlestore-core/columns/geography.ts:66 | encoding one point of a line string or ring throws exactly when the point is `null` or `undefined` |
| Geography.RingFragment | drizzle-orm/src/singlestore-core/columns/geography.ts:69-72 | encoding a ring throws exactly when the ring is not an array or one of its points is `null`/`undefined` |
| Geography.MapToDriverValue | drizzle-orm/src/singlestore-core/columns/geography.ts:61-77 | "value is not Array" is raised exactly for a non-nullish value that is none of point, line string and polygon; a TypeError comes only from a nullish value, a nullish point of a line string, or a polygon ring that cannot be encoded |
| Geography.MapFromDriverValue | drizzle-orm/src/singlestore-core/columns/geography.ts:79-97 | decoding fails with "Unexpected Geography type" exactly when the tag is not POINT, LINESTRING or POLYGON; each tag gives its own shape |
| Geography.TypeTag | drizzle-orm/src/singlestore-core/columns/geography.ts:80-81 | the tag never contains `(`; with a `(` in the input it is the text before the first `(`; without one it is the input minus its last character |
| Geography.Inner | drizzle-orm/src/singlestore-core/columns/geography.ts:80-82 | the tag, `(`, the inner text and one last character make up the input, unless that `(` is the last character and the inner text is empty; with no `(` the inner text equals the tag |
| Geography.ParsePoint | drizzle-orm/src/singlestore-core/columns/geography.ts:104-106 | one number per space-separated token, so one more than there are spaces; that the tokens rejoin to the input is `GeographyProperties.PointTokens` |
| Geography.ParseLineString | drizzle-orm/src/singlestore-core/columns/geography.ts:108-111 | one point per `', '`-separated segment, so one more than there are separators; that the segments rejoin to the input is `GeographyProperties.LineStringSegments` |
| Geography.ParsePolygon | drizzle-orm/src/singlestore-core/columns/geography.ts:113-116 | one ring per `'), ('`-separated segment of the input without its first and last characters; that the rings rejoin to that text is `GeographyProperties.PolygonRings` |
| GeographyProperties.TagAndInner | drizzle-orm/src/singlestore-core/columns/geography.ts:80-82 | with a `(` present, the tag is the text before the first `(` and the inner text is what follows it minus the last character |
| GeographyProperties.TagWithoutParenthesis | drizzle-orm/src/singlestore-core/columns/geography.ts:80-82 | with no `(`, tag and inner text are both the input minus its last character |
| GeographyProperties.DecodeWithoutParenthesis | drizzle-orm/src/singlestore-core/columns/geography.ts:79-97 | an input with no `(` that is `POINT` plus one character decodes as the one-number point `[Number("POINT")]` |
| GeographyProperties.PointTokens | drizzle-orm/src/singlestore-core/columns/geography.ts:104-106 | a point has one number per space-separated token, in order: the tokens rejoined with spaces are the input, there is one more than there are spaces, and none contains a space |
| GeographyProperties.PointOfTwoTokens | drizzle-orm/src/singlestore-core/columns/geography.ts:104-106 | `"a b"` parses as `[a, b]` |
| GeographyProperties.LineStringSegments | drizzle-orm/src/singlestore-core/columns/geography.ts:108-111 | a line string has one point per `', '`-separated segment, in order, and one more point than separators |
| GeographyProperties.PolygonRings | drizzle-orm/src/singlestore-core/columns/geography.ts:113-116 | a polygon drops the first and last characters, has one more ring than `'), ('` separators, and parses each ring as a line string |
| GeographyProperties.PairFragment | drizzle-orm/src/singlestore-core/columns/geography.ts:66 | one point of a line string renders as `lng lat` and binds `lng` then `lat` |
| GeographyProperties.PointsFragment | drizzle-orm/src/singlestore-core/columns/geography.ts:66-67 | the points of a line string render joined with `', '` and bind their coordinates point by point |
| GeographyProperties.EncodePoint | drizzle-orm/src/singlestore-core/columns/geography.ts:62-64 | a point binds exactly two values, `lng` then `lat`, inside the `"POINT(` … `)"` literal |
| GeographyProperties.EncodeLineString | drizzle-orm/src/singlestore-core/columns/geography.ts:65-67 | a line string of n points binds 2n values in point order, with `', '` between points, inside `"LINESTRING(` … `)"` |
| GeographyProperties.EncodeLineStringFails | drizzle-orm/src/singlestore-core/columns/geography.ts:65-67 | encoding a line string fails, with a TypeError, exactly when one of its points is `null`/`undefined` |
| GeographyProperties.EncodeRing | drizzle-orm/src/singlestore-core/columns/geography.ts:69-71 | one ring of complete points encodes as its points text in parentheses and binds their coordinates point by point |
| GeographyProperties.EncodePolygon | drizzle-orm/src/singlestore-core/columns/geography.ts:68-73 | each ring's points are wrapped in `(` … `)`, rings are joined with `', '` inside `"POLYGON(` … `)"`, and values are bound in ring order, then point order |
| GeographyProperties.ParsePoints | drizzle-orm/src/singlestore-core/columns/geography.ts:108-111 | the encoder's text for a list of points parses back, point by point, to the texts of its coordinates |
| GeographyProperties.RingsTextAsJoin | drizzle-orm/src/singlestore-core/columns/geography.ts:69-73 | the encoder's rings text is the inner texts joined with `'), ('` inside one outer pair of parentheses |
| GeographyProperties.ParseRings | drizzle-orm/src/singlestore-core/columns/geography.ts:113-116 | the encoder's rings text parses back ring by ring |
| GeographyProperties.Unquoted | drizzle-orm/src/singlestore-core/columns/geography.ts:64-82 | an encoder literal with its quotes removed has the encoder's tag and the encoded body as inner text |
| GeographyProperties.DecodeTagged | drizzle-orm/src/singlestore-core/columns/geography.ts:79-97 | the encoder's literal for each known tag, with its quotes removed, decodes with that tag's parser applied to the body |
| GeographyProperties.RoundTripPoint | drizzle-orm/src/singlestore-core/columns/geography.ts:61-106 | an encoded point, with its quotes removed, decodes to the texts of its two coordinates |
| GeographyProperties.RoundTripLineString | drizzle-orm/src/singlestore-core/columns/geography.ts:61-111 | an encoded line string, with its quotes removed, decodes point by point to the texts of its coordinates |
| GeographyProperties.RoundTripPolygon | drizzle-orm/src/singlestore-core/columns/geography.ts:61-116 | an encoded polygon with no empty ring, with its quotes removed, decodes ring by ring and point by point to the texts of its coordinates |
| GeographyProperties.RoundTrip | drizzle-orm/src/singlestore-core/columns/geography.ts:61-116 | every encodable value, with its quotes removed, decodes to its own shape, each coordinate read back from its text |
| PgCount.EmbeddedCount | drizzle-orm/src/pg-core/query-builders/count.ts:18-23 | the embedded form binds the source's values, then the filter's values, unchanged and in order |
| PgCount.TopLevelCount | drizzle-orm/src/pg-core/query-builders/count.ts:25-30 | the top-level form binds the source's values, then the filter's values, unchanged and in order |
| PgCount.WhereParams | drizzle-orm/src/pg-core/query-builders/count.ts:22 | the optional ` where ` keyword binds nothing, so the clause binds exactly the filter's values |
| PgCount.WhereText | drizzle-orm/src/pg-core/query-builders/count.ts:22 | the clause renders as ` where F` with a filter and as nothing without one |
| PgCount.EmbeddedIsParenthesisedBody | drizzle-orm/src/pg-core/query-builders/count.ts:18-23 | the embedded form is `(` + body + `)`, where body is `select count(*)::int from S[ where F]` |
| PgCount.TopLevelIsTerminatedBody | drizzle-orm/src/pg-core/query-builders/count.ts:25-30 | the top-level form is the same body + `;` |
| PgCount.NoWhereWithoutFilter | drizzle-orm/src/pg-core/query-builders/count.ts:29 | without a filter the statement is `select count(*)::int from S;` and the embedded form is `(select count(*)::int from S)` |
| PgCount.WhereWithFilter | drizzle-orm/src/pg-core/query-builders/count.ts:29 | with a filter the statement is `select count(*)::int from S where F;` |
| PgCount.CountUsers | drizzle-orm/src/pg-core/query-builders/count.ts:29 | counting `"users"` with no filter renders `select count(*)::int from "users";` and binds nothing |
| PgCount.NewCountBuilder | drizzle-orm/src/pg-core/query-builders/count.ts:32-48 | the constructor keeps the parameters and the session, and its chunk list and its statement bind the same values in the same order |
| PgCount.EmbeddedMatchesStatement | drizzle-orm/src/pg-core/query-builders/count.ts:40-47 | the builder's chunk list reads as its statement in parentheses without the trailing `;` |
| PgCount.Count | drizzle-orm/src/pg-core/query-builders/count.ts:54-56 | an awaited count is `rows[0]['count']` (`undefined` when the column is missing); it fails exactly when the session fails or returns no rows |
| PgCount.Then | drizzle-orm/src/pg-core/query-builders/count.ts:50-61 | the count goes to the fulfilment handler and a failure to the rejection handler; a missing handler passes the outcome through |
| PgCount.Catch | drizzle-orm/src/pg-core/query-builders/count.ts:63-67 | a count passes through `catch`; a failure goes to the handler, or passes through without one |
| PgCount.AfterFinally | drizzle-orm/src/pg-core/query-builders/count.ts:71-78 | after `onFinally?.()` the outcome is the one it was given, unless the callback throws, and then it is the callback's error |
| PgCount.Finally | drizzle-orm/src/pg-core/query-builders/count.ts:69-80 | `finally` passes the count or the failure through unchanged unless its callback throws, and then fails with the callback's error |
| PgCount.CatchIsThen | drizzle-orm/src/pg-core/query-builders/count.ts:66 | `catch(h)` is `then(undefined, h)` |
| PgCount.HandlersOptional | drizzle-orm/src/pg-core/query-builders/count.ts:50-80 | `then` with no handlers, `finally` with a returning callback and `catch` with no handler all settle as the count itself |
| PgCount.CountOfOneRow | drizzle-orm/src/pg-core/query-builders/count.ts:54-56 | a session returning `[{count: 3}]` makes the builder resolve to 3 |
| PgCount.CountOfNoRows | drizzle-orm/src/pg-core/query-builders/count.ts:54-56 | a session returning no rows makes the builder reject with a TypeError |
| RelationalQuery.FindMany | drizzle-orm/src/singlestore-core/query-builders/query.ts:41-56 | `findMany` forwards the builder's context and mode unchanged, uses query mode `'many'`, and passes the configuration as given or `{}` |
| RelationalQuery.LimitOne | drizzle-orm/src/singlestore-core/query-builders/query.ts:69 | `{...config, limit: 1}` has limit 1 and otherwise exactly the configuration's keys and values |
| RelationalQuery.FindFirst | drizzle-orm/src/singlestore-core/query-builders/query.ts:58-73 | `findFirst` forwards the same context, uses query mode `'first'`, and its configuration has limit 1 and otherwise exactly the caller's keys and values |
| RelationalQuery.FindFirstIsLimitedFindMany | drizzle-orm/src/singlestore-core/query-builders/query.ts:44-72 | `findFirst(c)` is `findMany` of `c` with limit 1 and query mode `'first'` |
| RelationalQuery.FindFirstOverridesLimit | drizzle-orm/src/singlestore-core/query-builders/query.ts:69 | a caller-supplied limit is replaced by 1 |
| RelationalQuery.Input | drizzle-orm/src/singlestore-core/query-builders/query.ts:116-132 | both planners receive the query's context and configuration and `tableAlias = tableConfig.tsName` |
| RelationalQuery.GetQuery | drizzle-orm/src/singlestore-core/query-builders/query.ts:114-135 | mode `'planetscale'` uses the planner without lateral sub-queries; any other mode, or none, uses the lateral planner |
| RelationalQuery.FindersPlanAlike | drizzle-orm/src/singlestore-core/query-builders/query.ts:114-135 | both finders plan with the planner the builder's mode selects, with the same input except the configuration |
| RelationalQuery.ToSqlPair | drizzle-orm/src/singlestore-core/query-builders/query.ts:137-143 | `_toSQL` plans once: its driver query is `sqlToQuery` of the planned query's SQL |
| RelationalQuery.GetSql | drizzle-orm/src/singlestore-core/query-builders/query.ts:145-148 | `getSQL()` is the SQL of the planner the mode selects |
| RelationalQuery.ToSql | drizzle-orm/src/singlestore-core/query-builders/query.ts:150-152 | `toSQL()` is `sqlToQuery(getSQL())` |
| RelationalQuery.MapRows | drizzle-orm/src/singlestore-core/query-builders/query.ts:105 | the mapped rows have the raw rows' length and order, each mapped with the same selection |
| RelationalQuery.Pick | drizzle-orm/src/singlestore-core/query-builders/query.ts:106-109 | `'many'` gives all rows; `'first'` gives row 0, or `undefined` when there are none |
| RelationalQuery.FirstIsHeadOfMany | drizzle-orm/src/singlestore-core/query-builders/query.ts:106-109 | the `'first'` result is the head of the `'many'` result, or `undefined` when that is empty |
| RelationalQuery.Prepare | drizzle-orm/src/singlestore-core/query-builders/query.ts:99-112 | the prepared query runs the `toSQL()` query, and its callback maps every raw row with the planned selection and then applies the cardinality rule |
| RelationalQuery.Execute | drizzle-orm/src/singlestore-core/query-builders/query.ts:154-156 | `execute` resolves to all mapped rows (`'many'`) or the first mapped row or `undefined` (`'first'`); a failure of the session propagates unchanged |
| RelationalQuery.FindFirstExecutesAsLimitedFindMany | drizzle-orm/src/singlestore-core/query-builders/query.ts:58-156 | executing `findFirst(c)` fails exactly when executing `findMany` of `c` with limit 1 fails, and otherwise gives the first row of that result or `undefined` |

## Left out

- `sql.ts` (the template tag, `sql.raw`, `sql.join`, `.if`, and the renderer) is not part of this model. The tag is modelled as flat chunks, with `undefined` adding nothing. How the renderer treats an interpolated array or object, and the placeholder syntax, are not modelled. Placeholder syntax is abstracted by `show`.
- `Number(...)` is not modelled. A decoded coordinate is `NumberOf(text)`. Floating-point parsing, `NaN` and number formatting are outside the model.
- JavaScript strings are sequences of UTF-16 code units, while the model's strings are sequences of Unicode scalar values. Outside the Basic Multilingual Plane the two differ: `indexOf` positions count a character once instead of twice, and `slice(…, -1)` or `slice(1, -1)` drops a whole character where JavaScript drops half of a surrogate pair. The decoder's model is exact only for text whose characters all lie in that plane.
- JavaScript values are modelled only as far as the codec inspects them. Strings, booleans and objects are one `Other` kind that has no `length` and no index. Objects that look like arrays are not modelled.
- GeographyProperties.RoundTrip: it needs every text `show` produces, for any value and not only the coordinates, to be without a space, `,` or `)`, and polygons without an empty ring. The decoder's fixed separators cannot read other inputs back.
- Geography.MapToDriverValue: its TypeError clause is one-directional (a TypeError implies one of the listed causes). The exact condition for line strings is `GeographyProperties.EncodeLineStringFails`.
- Promise scheduling is not modelled: microtask order, and the difference between `session.all` throwing synchronously and rejecting. Outcomes are `Settled` values, and a handler that returns a promise is modelled by the outcome that promise settles with.
- PgCount.Count: a session result that is not an array of row objects is not modelled.
- The count builder's `dialect` is stored and never read. `entityKind` and `Symbol.toStringTag` are constants with no behaviour. Inheritance from `SQL` is modelled as the `queryChunks` field.
- The count builder is a value built once by `NewCountBuilder`, not a mutable object. Its fields are assigned only in the constructor.
- `session.prepareQuery` is modelled as a prepared query (the built query plus the row callback) whose `execute` runs the query and then the callback. Its second argument (`undefined` fields) and the driver's own result handling are not modelled.
- `mapRelationalRow` is a total function parameter. A throw from it is not modelled.
- The relational query's constructor also accepts the configuration `true`. Neither finder passes it, so it is not modelled.
- `QueryPromise`'s own `then`/`catch`/`finally` are not in the modelled file and are not modelled.
- Type-level parameters (`KnownKeysOnly`, result typings, prepared-query kinds) have no runtime behaviour and are not modelled.

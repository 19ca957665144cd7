/** The Postgres count builder (drizzle-orm/src/pg-core/query-builders/count.ts):
    one source and an optional filter give two fragments, an embedded scalar
    sub-select used when the builder is interpolated into another query, and
    a top-level statement run when the builder is awaited; awaiting resolves
    to the `count` field of the first row. */
module PgCount {
  import opened Js
  import opened Fragments

  type Sql = Fragment<JsValue>

  const Select: string := "select count(*)::int from "
  const Where: string := " where "

  /** The bound values of the optional filter. */
  function FilterParams(filters: Option<Sql>): seq<JsValue> {
    if filters.Some? then Params(filters.value) else []
  }

  /** `buildEmbeddedCount`: sql`(select count(*)::int from ${source}${where}${filters})`. */
  function EmbeddedCount(source: Sql, filters: Option<Sql>): (r: Sql)
    ensures Params(r) == Params(source) + FilterParams(filters)
  {
    var where, filter := If(Raw(Where), filters.Some?), Optional(filters);
    Template3Params("(" + Select, "", "", ")", Sub(source), where, filter);
    WhereParams(filters);
    Template(["(" + Select, "", "", ")"], [Sub(source), where, filter])
  }

  /** `buildCount`: sql`select count(*)::int from ${source}${where}${filters};`. */
  function TopLevelCount(source: Sql, filters: Option<Sql>): (r: Sql)
    ensures Params(r) == Params(source) + FilterParams(filters)
  {
    var where, filter := If(Raw(Where), filters.Some?), Optional(filters);
    Template3Params(Select, "", "", ";", Sub(source), where, filter);
    WhereParams(filters);
    Template([Select, "", "", ";"], [Sub(source), where, filter])
  }

  /** `sql.raw(' where ').if(filters)` binds nothing, so the clause binds
      exactly the filter's values. */
  lemma WhereParams(filters: Option<Sql>)
    ensures Params(Chunks(If(Raw<JsValue>(Where), filters.Some?))) + Params(Chunks(Optional(filters)))
         == FilterParams(filters)
  {
    LitText<JsValue>(Where, _ => "");
  }

  /** The text of the optional ` where F` clause. */
  function WhereClause(filters: Option<Sql>, show: JsValue -> string): string {
    if filters.Some? then Where + Text(filters.value, show) else ""
  }

  /** The text both forms share: `select count(*)::int from S[ where F]`. */
  function BodyText(source: Sql, filters: Option<Sql>, show: JsValue -> string): string {
    Select + Text(source, show) + WhereClause(filters, show)
  }

  lemma WhereText(filters: Option<Sql>, show: JsValue -> string)
    ensures Text(Chunks(If(Raw<JsValue>(Where), filters.Some?)), show) + Text(Chunks(Optional(filters)), show)
         == WhereClause(filters, show)
  {
    LitText<JsValue>(Where, show);
  }

  /** The embedded form is the shared body in parentheses. */
  lemma EmbeddedIsParenthesisedBody(source: Sql, filters: Option<Sql>, show: JsValue -> string)
    ensures Text(EmbeddedCount(source, filters), show) == "(" + BodyText(source, filters, show) + ")"
  {
    var where, filter := If(Raw(Where), filters.Some?), Optional(filters);
    Template3Text("(" + Select, "", "", ")", Sub(source), where, filter, show);
    WhereText(filters, show);
    var t, w1, w2 := Text(source, show), Text(Chunks(where), show), Text(Chunks(filter), show);
    Assoc("(", Select + t, w1 + w2);
    Assoc("(", Select, t);
    Assoc("(" + Select + t, w1, w2);
  }

  /** The top-level form is the shared body followed by ';'. */
  lemma TopLevelIsTerminatedBody(source: Sql, filters: Option<Sql>, show: JsValue -> string)
    ensures Text(TopLevelCount(source, filters), show) == BodyText(source, filters, show) + ";"
  {
    var where, filter := If(Raw(Where), filters.Some?), Optional(filters);
    Template3Text(Select, "", "", ";", Sub(source), where, filter, show);
    WhereText(filters, show);
    var t, w1, w2 := Text(source, show), Text(Chunks(where), show), Text(Chunks(filter), show);
    Assoc(Select + t, w1, w2);
  }

  /** Without a filter no ` where ` is emitted: the statement is the select
      and the source alone. */
  lemma NoWhereWithoutFilter(source: Sql, show: JsValue -> string)
    ensures Text(TopLevelCount(source, None), show) == Select + Text(source, show) + ";"
    ensures Text(EmbeddedCount(source, None), show) == "(" + Select + Text(source, show) + ")"
  {
    var t := Text(source, show);
    assert BodyText(source, None, show) == Select + t;
    TopLevelIsTerminatedBody(source, None, show);
    EmbeddedIsParenthesisedBody(source, None, show);
    Assoc("(", Select, t);
  }

  /** With a filter, ` where ` and the filter follow the source. */
  lemma WhereWithFilter(source: Sql, filter: Sql, show: JsValue -> string)
    ensures Text(TopLevelCount(source, Some(filter)), show)
         == Select + Text(source, show) + Where + Text(filter, show) + ";"
  {
    var t, u := Text(source, show), Text(filter, show);
    assert BodyText(source, Some(filter), show) == Select + t + (Where + u);
    TopLevelIsTerminatedBody(source, Some(filter), show);
    Assoc(Select + t, Where, u);
  }

  /** Counting the table "users" with no filter. */
  lemma CountUsers(show: JsValue -> string)
    ensures Text(TopLevelCount([Lit("\"users\"")], None), show) == "select count(*)::int from \"users\";"
    ensures Params(TopLevelCount([Lit("\"users\"")], None)) == []
  {
    NoWhereWithoutFilter([Lit("\"users\"")], show);
    LitText<JsValue>("\"users\"", show);
  }

  // ---------------------------------------------------------------------
  // The builder
  // ---------------------------------------------------------------------

  /** A returned row: column name to value. */
  type Row = map<string, JsValue>

  /** The session, as far as the builder uses it: `all` runs a statement and
      settles with its rows. */
  datatype Session = Session(all: Sql -> Settled<seq<Row>>)

  /** The constructor's argument; the dialect is stored and never used. */
  datatype CountParams = CountParams(source: Sql, filters: Option<Sql>, dialect: Opaque, session: Session)

  /** A constructed builder: `queryChunks` is what it contributes when
      interpolated into another fragment, `sql` what it runs when awaited. */
  datatype CountBuilder = CountBuilder(params: CountParams, queryChunks: Sql, session: Session, sql: Sql)

  /** The constructor: both forms are built from the same source and filter,
      so they bind the same values in the same order. */
  function NewCountBuilder(params: CountParams): (b: CountBuilder)
    ensures b.params == params && b.session == params.session
    ensures Params(b.queryChunks) == Params(b.sql) == Params(params.source) + FilterParams(params.filters)
  {
    CountBuilder(params, EmbeddedCount(params.source, params.filters), params.session,
                 TopLevelCount(params.source, params.filters))
  }

  /** Embedded, a builder reads as the parenthesised statement it runs when
      awaited, without the trailing ';'. */
  lemma EmbeddedMatchesStatement(params: CountParams, show: JsValue -> string)
    ensures var b := NewCountBuilder(params);
      var stmt := Text(b.sql, show);
      |stmt| >= 1 && stmt[|stmt| - 1] == ';'
      && Text(b.queryChunks, show) == "(" + stmt[..|stmt| - 1] + ")"
  {
    var b := NewCountBuilder(params);
    EmbeddedIsParenthesisedBody(params.source, params.filters, show);
    TopLevelIsTerminatedBody(params.source, params.filters, show);
    var body := BodyText(params.source, params.filters, show);
    assert (body + ";")[..|body + ";"| - 1] == body;
  }

  // ---------------------------------------------------------------------
  // Awaiting
  // ---------------------------------------------------------------------

  /** The value awaiting the builder first settles with: `rows[0]['count']`
      (undefined when the row has no such column); reading row 0 of an
      empty result throws. */
  function Count(b: CountBuilder): (r: Settled<JsValue>)
    ensures b.session.all(b.sql).Rejected? ==> r == Rejected(b.session.all(b.sql).reason)
    ensures b.session.all(b.sql).Fulfilled? ==>
      var rows := b.session.all(b.sql).value;
      (r.Rejected? <==> |rows| == 0)
      && (|rows| > 0 && "count" in rows[0] ==> r == Fulfilled(rows[0]["count"]))
      && (|rows| > 0 && "count" !in rows[0] ==> r == Fulfilled(Undefined))
  {
    match b.session.all(b.sql)
    case Rejected(e) => Rejected(e)
    case Fulfilled(rows) =>
      if |rows| == 0 then Rejected(ReadError(Undefined, "count"))
      else Fulfilled(if "count" in rows[0] then rows[0]["count"] else Undefined)
  }

  /** A fulfilment handler: it returns a value or throws (or returns a promise
      that settles one of those ways). */
  type OnFulfilled = JsValue -> Settled<JsValue>
  type OnRejected = Error -> Settled<JsValue>

  /** `promise.then(onFulfilled, onRejected)` on a settled promise; a missing
      handler passes the outcome through. */
  function Chain(s: Settled<JsValue>, onFulfilled: Option<OnFulfilled>, onRejected: Option<OnRejected>): Settled<JsValue> {
    match s
    case Fulfilled(v) => if onFulfilled.Some? then onFulfilled.value(v) else s
    case Rejected(e) => if onRejected.Some? then onRejected.value(e) else s
  }

  /** `then`: the count, then the caller's handlers. */
  function Then(b: CountBuilder, onFulfilled: Option<OnFulfilled>, onRejected: Option<OnRejected>): (r: Settled<JsValue>)
    ensures Count(b).Fulfilled? ==>
      r == (if onFulfilled.Some? then onFulfilled.value(Count(b).value) else Count(b))
    ensures Count(b).Rejected? ==>
      r == (if onRejected.Some? then onRejected.value(Count(b).reason) else Count(b))
  {
    Chain(Count(b), onFulfilled, onRejected)
  }

  /** `catch`: a count passes through; a failure goes to the handler. */
  function Catch(b: CountBuilder, onRejected: Option<OnRejected>): (r: Settled<JsValue>)
    ensures Count(b).Fulfilled? ==> r == Count(b)
    ensures Count(b).Rejected? && onRejected.Some? ==> r == onRejected.value(Count(b).reason)
    ensures onRejected.None? ==> r == Count(b)
  {
    Then(b, None, onRejected)
  }

  /** `onFinally`: absent, or a callback that returns or throws. */
  datatype Callback = Returns | Throws(error: Error)

  /** Runs `onFinally?.()` and then settles as `s` did, unless the callback threw. */
  function AfterFinally(onFinally: Option<Callback>, s: Settled<JsValue>): (r: Settled<JsValue>)
    ensures onFinally.None? || onFinally.value.Returns? ==> r == s
    ensures onFinally.Some? && onFinally.value.Throws? ==> r == Rejected(onFinally.value.error)
  {
    if onFinally.Some? && onFinally.value.Throws? then Rejected(onFinally.value.error) else s
  }

  /** `finally`: the callback runs on both paths; the count or the failure
      passes through unchanged unless the callback itself throws. */
  function Finally(b: CountBuilder, onFinally: Option<Callback>): (r: Settled<JsValue>)
    ensures onFinally.None? || onFinally.value.Returns? ==> r == Count(b)
    ensures onFinally.Some? && onFinally.value.Throws? ==> r == Rejected(onFinally.value.error)
  {
    Then(b, Some((value: JsValue) => AfterFinally(onFinally, Fulfilled(value))),
            Some((reason: Error) => AfterFinally(onFinally, Rejected(reason))))
  }

  /** `catch(h)` is `then(undefined, h)`. */
  lemma CatchIsThen(b: CountBuilder, onRejected: Option<OnRejected>)
    ensures Catch(b, onRejected) == Then(b, None, onRejected)
  {
  }

  /** Awaiting with no handlers settles exactly as `finally` with a callback
      that returns, and as `catch` with none. */
  lemma HandlersOptional(b: CountBuilder)
    ensures Then(b, None, None) == Count(b)
    ensures Finally(b, Some(Returns)) == Count(b) == Catch(b, None)
  {
  }

  /** A session that returns one row whose `count` is 3 makes the builder
      resolve to 3, whatever the source and filter. */
  lemma CountOfOneRow(source: Sql, filters: Option<Sql>)
    ensures var session := Session(_ => Fulfilled([map["count" := Num(3.0)]]));
      Then(NewCountBuilder(CountParams(source, filters, Opaque(0), session)), None, None) == Fulfilled(Num(3.0))
  {
  }

  /** A session that returns no rows makes the builder reject with a TypeError. */
  lemma CountOfNoRows(source: Sql, filters: Option<Sql>)
    ensures var session := Session(_ => Fulfilled([]));
      var r := Then(NewCountBuilder(CountParams(source, filters, Opaque(0), session)), None, None);
      r.Rejected? && r.reason.TypeError?
  {
  }
}

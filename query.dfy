/** The SingleStore relational query front-end
    (drizzle-orm/src/singlestore-core/query-builders/query.ts): how
    `findMany` and `findFirst` shape the query configuration, how the planner
    is chosen by connection mode, and how the driver's raw rows become the
    query's result. The dialect's planners, its SQL-to-query step, the
    session and `mapRelationalRow` are parameters whose code is not modelled. */
module RelationalQuery {
  import opened Js
  import opened Fragments

  /** The connection mode of a SingleStore session. */
  datatype Mode = Default | Planetscale

  /** Whether the query returns all rows or only the first. */
  datatype QueryMode = Many | First

  /** A relational query configuration (`columns`, `with`, `where`,
      `limit`, ...), keyed by option name. */
  type Config = map<string, JsValue>

  datatype TableConfig = TableConfig(tsName: string, details: Opaque)

  /** What a planner is given. */
  datatype PlannerInput = PlannerInput(
    fullSchema: Opaque, schema: Opaque, tableNamesMap: map<string, string>, table: Opaque,
    tableConfig: TableConfig, queryConfig: Config, tableAlias: string)

  /** What a planner returns: the statement and the selection that tells
      `mapRelationalRow` how to read each row. */
  datatype BuiltRelational = BuiltRelational(sql: Fragment<JsValue>, selection: Opaque)

  /** A statement ready for the driver: its text and bound values. */
  datatype Query = Query(sql: string, params: seq<JsValue>)

  datatype Dialect = Dialect(
    buildRelationalQuery: PlannerInput -> BuiltRelational,
    buildRelationalQueryWithoutLateralSubqueries: PlannerInput -> BuiltRelational,
    sqlToQuery: Fragment<JsValue> -> Query)

  /** The session, as far as a prepared query uses it: `run` sends a query
      and settles with the driver's raw rows. */
  datatype Session = Session(run: Query -> Settled<seq<JsValue>>)

  /** `mapRelationalRow(schema, tableConfig, row, selection)`. */
  type RowMapper = (Opaque, TableConfig, JsValue, Opaque) -> JsValue

  /** `RelationalQueryBuilder`: the context one table's finders share. */
  datatype QueryBuilder = QueryBuilder(
    fullSchema: Opaque, schema: Opaque, tableNamesMap: map<string, string>, table: Opaque,
    tableConfig: TableConfig, dialect: Dialect, session: Session, mode: Mode)

  /** `SingleStoreRelationalQuery`: the shared context, the configuration,
      the query mode and the (optional) connection mode. */
  datatype RelationalQuery = RelationalQuery(
    fullSchema: Opaque, schema: Opaque, tableNamesMap: map<string, string>, table: Opaque,
    tableConfig: TableConfig, dialect: Dialect, session: Session,
    config: Config, queryMode: QueryMode, mode: Option<Mode>)

  /** The query carries the builder's context unchanged. */
  ghost predicate SameContext(b: QueryBuilder, q: RelationalQuery) {
    && q.fullSchema == b.fullSchema && q.schema == b.schema && q.tableNamesMap == b.tableNamesMap
    && q.table == b.table && q.tableConfig == b.tableConfig && q.dialect == b.dialect
    && q.session == b.session && q.mode == Some(b.mode)
  }

  // ---------------------------------------------------------------------
  // The finders
  // ---------------------------------------------------------------------

  /** `findMany`: the caller's configuration as given, or `{}`. */
  function FindMany(b: QueryBuilder, config: Option<Config>): (q: RelationalQuery)
    ensures SameContext(b, q) && q.queryMode == Many
    ensures config.Some? ==> q.config == config.value
    ensures config.None? ==> q.config == map[]
  {
    RelationalQuery(b.fullSchema, b.schema, b.tableNamesMap, b.table, b.tableConfig, b.dialect, b.session,
                    if config.Some? then config.value else map[], Many, Some(b.mode))
  }

  /** `{ ...config, limit: 1 }`, or `{ limit: 1 }` without a configuration. */
  function LimitOne(config: Option<Config>): (c: Config)
    ensures "limit" in c && c["limit"] == Num(1.0)
    ensures forall k :: k != "limit" ==> (k in c <==> config.Some? && k in config.value)
    ensures forall k :: k != "limit" && k in c ==> c[k] == config.value[k]
  {
    if config.Some? then config.value["limit" := Num(1.0)] else map["limit" := Num(1.0)]
  }

  /** `findFirst`: the caller's configuration with its limit forced to 1. */
  function FindFirst(b: QueryBuilder, config: Option<Config>): (q: RelationalQuery)
    ensures SameContext(b, q) && q.queryMode == First
    ensures "limit" in q.config && q.config["limit"] == Num(1.0)
    ensures forall k :: k != "limit" ==> (k in q.config <==> config.Some? && k in config.value)
    ensures forall k :: k != "limit" && k in q.config ==> q.config[k] == config.value[k]
  {
    RelationalQuery(b.fullSchema, b.schema, b.tableNamesMap, b.table, b.tableConfig, b.dialect, b.session,
                    LimitOne(config), First, Some(b.mode))
  }

  /** `findFirst(c)` is `findMany` of `c` with limit 1, in query mode 'first'. */
  lemma FindFirstIsLimitedFindMany(b: QueryBuilder, config: Option<Config>)
    ensures FindFirst(b, config) == FindMany(b, Some(LimitOne(config))).(queryMode := First)
  {
  }

  /** A caller-supplied limit is overridden. */
  lemma FindFirstOverridesLimit(b: QueryBuilder, n: real)
    ensures FindFirst(b, Some(map["limit" := Num(n)])).config == map["limit" := Num(1.0)]
  {
  }

  // ---------------------------------------------------------------------
  // Planning
  // ---------------------------------------------------------------------

  /** The planner input: the query's context and configuration, aliased by
      the table's TypeScript name. */
  function Input(q: RelationalQuery): (i: PlannerInput)
    ensures i.tableAlias == q.tableConfig.tsName && i.queryConfig == q.config
    ensures i.fullSchema == q.fullSchema && i.schema == q.schema && i.tableNamesMap == q.tableNamesMap
    ensures i.table == q.table && i.tableConfig == q.tableConfig
  {
    PlannerInput(q.fullSchema, q.schema, q.tableNamesMap, q.table, q.tableConfig, q.config, q.tableConfig.tsName)
  }

  /** `_getQuery`: the planner without lateral sub-queries for 'planetscale',
      the lateral planner for any other mode or none. */
  function GetQuery(q: RelationalQuery): (r: BuiltRelational)
    ensures q.mode == Some(Planetscale) ==> r == q.dialect.buildRelationalQueryWithoutLateralSubqueries(Input(q))
    ensures q.mode != Some(Planetscale) ==> r == q.dialect.buildRelationalQuery(Input(q))
  {
    if q.mode == Some(Planetscale) then q.dialect.buildRelationalQueryWithoutLateralSubqueries(Input(q))
    else q.dialect.buildRelationalQuery(Input(q))
  }

  /** `_toSQL`: the planned query and the driver query built from its SQL. */
  datatype Planned = Planned(query: BuiltRelational, builtQuery: Query)

  /** Both halves come from one plan: the driver query is built from the
      planned statement, not from a second planning. */
  function ToSqlPair(q: RelationalQuery): (p: Planned)
    ensures p.query == GetQuery(q)
    ensures p.builtQuery == q.dialect.sqlToQuery(GetQuery(q).sql)
  {
    var query := GetQuery(q);
    Planned(query, q.dialect.sqlToQuery(query.sql))
  }

  /** `getSQL`: the statement of the planner the mode selects. */
  function GetSql(q: RelationalQuery): (f: Fragment<JsValue>)
    ensures q.mode == Some(Planetscale) ==> f == q.dialect.buildRelationalQueryWithoutLateralSubqueries(Input(q)).sql
    ensures q.mode != Some(Planetscale) ==> f == q.dialect.buildRelationalQuery(Input(q)).sql
  {
    GetQuery(q).sql
  }

  /** `toSQL`: `sqlToQuery(getSQL())`, since both come from the same plan. */
  function ToSql(q: RelationalQuery): (r: Query)
    ensures r == q.dialect.sqlToQuery(GetSql(q))
  {
    ToSqlPair(q).builtQuery
  }

  /** Both finders plan with the planner the builder's mode selects, and with
      the same input except the configuration. */
  lemma FindersPlanAlike(b: QueryBuilder, config: Option<Config>)
    ensures var many, first := FindMany(b, config), FindFirst(b, config);
      Input(first) == Input(many).(queryConfig := LimitOne(config))
      && (b.mode == Planetscale ==>
            && GetQuery(many) == b.dialect.buildRelationalQueryWithoutLateralSubqueries(Input(many))
            && GetQuery(first) == b.dialect.buildRelationalQueryWithoutLateralSubqueries(Input(first)))
      && (b.mode == Default ==>
            && GetQuery(many) == b.dialect.buildRelationalQuery(Input(many))
            && GetQuery(first) == b.dialect.buildRelationalQuery(Input(first)))
  {
  }

  // ---------------------------------------------------------------------
  // Rows
  // ---------------------------------------------------------------------

  /** `rawRows.map((row) => mapRelationalRow(schema, tableConfig, row, selection))`. */
  function MapRows(mapRow: RowMapper, schema: Opaque, tableConfig: TableConfig, rawRows: seq<JsValue>, selection: Opaque): (rows: seq<JsValue>)
    ensures |rows| == |rawRows|
    ensures forall i :: 0 <= i < |rows| ==> rows[i] == mapRow(schema, tableConfig, rawRows[i], selection)
  {
    seq(|rawRows|, i requires 0 <= i < |rawRows| => mapRow(schema, tableConfig, rawRows[i], selection))
  }

  /** The cardinality rule: all rows for 'many'; row 0, or `undefined` when
      there is none, for 'first'. */
  function Pick(queryMode: QueryMode, rows: seq<JsValue>): (r: JsValue)
    ensures queryMode == Many ==> r == Arr(rows)
    ensures queryMode == First && |rows| > 0 ==> r == rows[0]
    ensures queryMode == First && |rows| == 0 ==> r == Undefined
  {
    if queryMode == First then (if |rows| > 0 then rows[0] else Undefined)
    else Arr(rows)
  }

  /** The 'first' result is the head of the 'many' result. */
  lemma FirstIsHeadOfMany(rows: seq<JsValue>)
    ensures var many := Pick(Many, rows);
      Pick(First, rows) == if many.items == [] then Undefined else many.items[0]
  {
  }

  /** A prepared query: the driver query and the callback applied to the
      raw rows it returns. */
  datatype PreparedQuery = PreparedQuery(query: Query, mapper: seq<JsValue> -> JsValue)

  /** `prepare`: the built query, with the row-mapping callback. */
  function Prepare(q: RelationalQuery, mapRow: RowMapper): (p: PreparedQuery)
    ensures p.query == ToSql(q)
    ensures forall rawRows :: (p.mapper(rawRows)
      == Pick(q.queryMode, MapRows(mapRow, q.schema, q.tableConfig, rawRows, GetQuery(q).selection)))
  {
    var planned := ToSqlPair(q);
    PreparedQuery(planned.builtQuery,
      (rawRows: seq<JsValue>) =>
        Pick(q.queryMode, MapRows(mapRow, q.schema, q.tableConfig, rawRows, planned.query.selection)))
  }

  /** A prepared query's `execute`: run the query, then map the raw rows; a
      failure of the session propagates unchanged. */
  function ExecutePrepared(session: Session, p: PreparedQuery): Settled<JsValue> {
    match session.run(p.query)
    case Rejected(e) => Rejected(e)
    case Fulfilled(rawRows) => Fulfilled(p.mapper(rawRows))
  }

  /** `execute`: `prepare().execute()`. In 'many' mode it resolves to every
      raw row mapped, in order; in 'first' mode to the first mapped row or
      `undefined`; a failure of the session propagates. */
  function Execute(q: RelationalQuery, mapRow: RowMapper): (r: Settled<JsValue>)
    ensures q.session.run(ToSql(q)).Rejected? ==> r == Rejected(q.session.run(ToSql(q)).reason)
    ensures q.session.run(ToSql(q)).Fulfilled? ==>
      var rows := MapRows(mapRow, q.schema, q.tableConfig, q.session.run(ToSql(q)).value, GetQuery(q).selection);
      && (q.queryMode == Many ==> r == Fulfilled(Arr(rows)))
      && (q.queryMode == First ==> r == Fulfilled(if |rows| == 0 then Undefined else rows[0]))
  {
    ExecutePrepared(q.session, Prepare(q, mapRow))
  }

  /** `findFirst(...).execute()` resolves to the first element of what
      `findMany` with limit 1 resolves to, or `undefined` when that is empty;
      both fail alike. */
  lemma FindFirstExecutesAsLimitedFindMany(b: QueryBuilder, config: Option<Config>, mapRow: RowMapper)
    ensures var rf, rm := Execute(FindFirst(b, config), mapRow), Execute(FindMany(b, Some(LimitOne(config))), mapRow);
      && (rm.Rejected? <==> rf.Rejected?)
      && (rm.Rejected? ==> rf == rm)
      && (rm.Fulfilled? ==> rm.value.Arr? && rf.Fulfilled? && rf.value == Pick(First, rm.value.items))
  {
    var first, many := FindFirst(b, config), FindMany(b, Some(LimitOne(config)));
    assert Input(first) == Input(many);
    assert ToSql(first) == ToSql(many) && GetQuery(first) == GetQuery(many);
    var outcome := b.session.run(ToSql(many));
    if outcome.Fulfilled? {
      var rows := MapRows(mapRow, b.schema, b.tableConfig, outcome.value, GetQuery(many).selection);
      FirstIsHeadOfMany(rows);
    }
  }
}

/** The fallback handler for statements the stream producer could not
    classify. It parses the statement generically; an update or delete of a
    cached table of this database is treated like a schema change of that
    table, which reloads it and so drops all of its cached rows. */
module FallbackHandler {
  import opened RowcacheTypes
  import opened Effects
  import DdlHandler

  /** The table an update or delete statement writes to. */
  function Target(stmt: Statement): (t: Option<TableRef>)
  {
    match stmt
    case UpdateStmt(t) => Some(t)
    case DeleteStmt(t) => Some(t)
    case _ => None
  }

  /** A reference without a qualifier, or qualified with the application
      database, is a table of this database. */
  predicate IsLocal(env: Env, t: TableRef)
  {
    t.qualifier == "" || t.qualifier == env.appDbName
  }

  /** Handles the table an update or delete statement writes to. */
  function RefreshTable(env: Env, st: State, t: TableRef): (r: Step)
    ensures !IsLocal(env, t) ==> r == Step(st, Ok)
    ensures IsLocal(env, t) && t.name !in st.tables ==> r == Step(CountInvalidation(st), Ok)
    ensures IsLocal(env, t) && t.name in st.tables && st.tables[t.name].cacheType == CacheNone ==>
      r == Step(st, Ok)
    ensures IsLocal(env, t) && t.name in st.tables && st.tables[t.name].cacheType != CacheNone ==>
      IssuedInOrder(env, st, [CreateOrUpdateTable(t.name)], r)
  {
    if t.qualifier != "" && t.qualifier != env.appDbName then
      Step(st, Ok)
    else if t.name !in st.tables then
      Step(CountInvalidation(st), Ok)
    else if st.tables[t.name].cacheType == CacheNone then
      Step(st, Ok)
    else
      Perform(env, st, CreateOrUpdateTable(t.name))
  }

  /** Handles an unclassified statement: a parse failure or a statement that
      is neither insert, update nor delete is counted as an "Invalidation"
      internal error; an insert changes nothing; an update or delete goes to
      `RefreshTable`. No TabletError is raised here: only a panic inside the
      table reload can end it abnormally. */
  function HandleUnrecognizedEvent(env: Env, st: State, sql: string): (r: Step)
    ensures env.sqlParse(sql).ParseError? || env.sqlParse(sql).OtherStmt? ==>
      r == Step(CountInvalidation(st), Ok)
    ensures env.sqlParse(sql).InsertStmt? ==> r == Step(st, Ok)
    ensures Target(env.sqlParse(sql)).Some? ==> r == RefreshTable(env, st, Target(env.sqlParse(sql)).value)
  {
    match env.sqlParse(sql)
    case ParseError(_) => Step(CountInvalidation(st), Ok)
    case InsertStmt => Step(st, Ok)
    case UpdateStmt(t) => RefreshTable(env, st, t)
    case DeleteStmt(t) => RefreshTable(env, st, t)
    case OtherStmt => Step(CountInvalidation(st), Ok)
  }

  /** Whatever the statement, the fallback handler never deletes keys and
      never drops a table: it reloads at most one table, the one the
      statement writes to, adds at most one to the "Invalidation" counter
      and to nothing else, and does not itself write the table map, the
      position or the lag. */
  lemma FallbackIsConservative(env: Env, st: State, sql: string)
    ensures var r := HandleUnrecognizedEvent(env, st, sql);
      && (r.st.ops == st.ops
          || (Target(env.sqlParse(sql)).Some?
              && r.st.ops == st.ops + [CreateOrUpdateTable(Target(env.sqlParse(sql)).value.name)]))
      && r.st.pos == st.pos && r.st.tables == st.tables && r.st.lag == st.lag
      && r.st.errors.panic == st.errors.panic
      && st.errors.invalidation <= r.st.errors.invalidation <= st.errors.invalidation + 1
      && (r.st.errors.invalidation == st.errors.invalidation + 1 ==> r.st.ops == st.ops)
      && (r.outcome.Ok? || r.outcome == env.fault(CreateOrUpdateTable(Target(env.sqlParse(sql)).value.name)))
  {
  }

  /** An update or delete of a cached table of this database is handled
      exactly like a schema change that keeps the table's (non-empty) name: the table
      is reloaded and nothing is dropped. */
  lemma FallbackActsAsDdl(env: Env, st: State, sql: string, ddl: string)
    requires Target(env.sqlParse(sql)).Some?
    requires var t := Target(env.sqlParse(sql)).value;
      t.name != "" && IsLocal(env, t) && t.name in st.tables && st.tables[t.name].cacheType != CacheNone
    requires var plan := env.ddlParse(ddl);
      plan.action != "" && plan.tableName == Target(env.sqlParse(sql)).value.name && plan.newName == plan.tableName
    ensures HandleUnrecognizedEvent(env, st, sql) == DdlHandler.HandleDdlEvent(env, st, ddl)
  {
  }
}

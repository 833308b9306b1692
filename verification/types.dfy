/** Data model of the rowcache invalidator: the replication position, the
    tables it knows, the log of operations it issues against the row cache and
    the schema, the internal-error counters it publishes, and the external
    collaborators it consults (parsers, GTID decoding, key building), which
    are given as total functions in an `Env` record.
 */
module RowcacheTypes {

  datatype Option<T> = None | Some(value: T)

  /** An opaque global transaction identifier, as decoded from a POS event. */
  datatype Gtid = Gtid(id: string)

  /** The replication position: the GTIDs processed so far, in order. */
  type ReplicationPosition = seq<Gtid>

  /** The cache policy of a table (schema.CACHE_NONE, CACHE_RW, CACHE_W). */
  datatype CacheType = CacheNone | CacheRW | CacheW

  /** What the invalidator reads and writes of a table's metadata: its cache
      policy and its invalidation counter. */
  datatype TableInfo = TableInfo(cacheType: CacheType, invalidations: int)

  /** One operation issued against an external collaborator, in the order
      it was issued: a key deleted from a table's cache partition, a table
      dropped from the schema, or a table (re)loaded into the schema. */
  datatype Op =
    | Delete(table: string, key: string)
    | DropTable(name: string)
    | CreateOrUpdateTable(name: string)
    | ClearRowcache

  /** The two internal-error counters this core adds to. */
  datatype InternalErrors = InternalErrors(invalidation: nat, panic: nat)

  /** The classified error code a handler raises itself. A TabletError
      raised inside a collaborator is only told apart from other failures by
      its type, so its code is not modelled. */
  datatype ErrorCode = BadInput

  /** How a handler (or an external call inside it) ended: normally, by
      raising a classified TabletError, or by any other abrupt failure. */
  datatype Outcome = Ok | TabletErr(code: ErrorCode) | OtherFailure(msg: string)

  /** The invalidator's state as seen by one sequential execution context. */
  datatype State = State(
    pos: ReplicationPosition,
    tables: map<string, TableInfo>,
    ops: seq<Op>,
    errors: InternalErrors,
    lag: int)

  /** A handler's result: the state it leaves and how it ended. */
  datatype Step = Step(st: State, outcome: Outcome)

  /** The result of parsing a DDL statement. An empty action means the
      statement was not understood. */
  datatype DdlPlan = DdlPlan(action: string, tableName: string, newName: string)

  /** A possibly schema-qualified table reference. */
  datatype TableRef = TableRef(qualifier: string, name: string)

  /** The result of parsing a statement generically. */
  datatype Statement =
    | ParseError(msg: string)
    | InsertStmt
    | UpdateStmt(table: TableRef)
    | DeleteStmt(table: TableRef)
    | OtherStmt

  datatype DecodeResult = Decoded(gtid: Gtid) | DecodeError(msg: string)

  type PkTuple = seq<string>

  /** One event of the replication stream. `category` is the producer's tag;
      "DDL", "DML", "ERR" and "POS" are recognised. */
  datatype StreamEvent = StreamEvent(
    category: string,
    sql: string,
    tableName: string,
    pkValues: seq<PkTuple>,
    transactionId: string,
    timestamp: int)

  /** The external collaborators.
      - `appDbName`: the configured application database name;
      - `ddlParse`, `sqlParse`: the DDL and generic statement parsers;
      - `decodeGtid`: decoding of a POS event's transaction id;
      - `cacheKey`: the validated cache key of a primary-key tuple of a
        table, where "" means the tuple did not validate;
      - `fault`: how an issued operation ends; anything but `Ok` is a panic
        raised inside the collaborator, after which the operation has no
        recorded effect. */
  datatype Env = Env(
    appDbName: string,
    ddlParse: string -> DdlPlan,
    sqlParse: string -> Statement,
    decodeGtid: string -> DecodeResult,
    cacheKey: (string, PkTuple) -> string,
    fault: Op -> Outcome)
}

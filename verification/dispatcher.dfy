/** The per-event dispatcher: routes a stream event on its category, and
    isolates handler failures at the event boundary. A handler that ends
    with a TabletError is counted as an "Invalidation" internal error, any
    other abrupt end as a "Panic"; either way the event is swallowed and no
    error reaches the stream. Only an undecodable POS event returns an
    error. The lag is set from the event's timestamp only when the event was
    handled normally. */
module Dispatcher {
  import opened RowcacheTypes
  import opened Effects
  import opened PositionTracker
  import DmlHandler
  import DdlHandler
  import FallbackHandler

  /** The state after an event, and the error handed back to the stream. */
  datatype EventResult = EventResult(st: State, err: Option<string>)

  /** A POS event whose transaction id does not decode. */
  predicate IsBadPos(env: Env, ev: StreamEvent)
  {
    ev.category == "POS" && env.decodeGtid(ev.transactionId).DecodeError?
  }

  /** The categories whose handler runs under the failure boundary. */
  predicate IsHandled(ev: StreamEvent)
  {
    ev.category == "DDL" || ev.category == "DML" || ev.category == "ERR"
  }

  /** The handler of a DDL, DML or ERR event. */
  function RunHandler(env: Env, st: State, ev: StreamEvent): (s: Step)
    requires IsHandled(ev)
  {
    if ev.category == "DDL" then DdlHandler.HandleDdlEvent(env, st, ev.sql)
    else if ev.category == "DML" then DmlHandler.HandleDmlEvent(env, st, ev)
    else FallbackHandler.HandleUnrecognizedEvent(env, st, ev.sql)
  }

  /** No handler moves the position, sets the lag, or adds to the "Panic"
      counter; only the fallback handler adds to the "Invalidation" one. */
  lemma HandlersKeepPosition(env: Env, st: State, ev: StreamEvent)
    requires IsHandled(ev)
    ensures var s := RunHandler(env, st, ev);
      && s.st.pos == st.pos && s.st.lag == st.lag && s.st.errors.panic == st.errors.panic
      && (ev.category != "ERR" ==> s.st.errors == st.errors)
  {
  }

  /** The recovery at the event boundary: classifies how a handler ended. */
  function HandleInvalidationError(s: Step): (r: State)
    ensures s.outcome.Ok? ==> r == s.st
    ensures s.outcome.TabletErr? ==>
      r.errors.invalidation == s.st.errors.invalidation + 1 && r.errors.panic == s.st.errors.panic
    ensures s.outcome.OtherFailure? ==>
      r.errors.panic == s.st.errors.panic + 1 && r.errors.invalidation == s.st.errors.invalidation
    ensures r.(errors := s.st.errors) == s.st
  {
    match s.outcome
    case Ok => s.st
    case TabletErr(_) => CountInvalidation(s.st)
    case OtherFailure(_) => CountPanic(s.st)
  }

  /** Handles one event received at wall-clock time `now`. */
  function ProcessEvent(env: Env, st: State, ev: StreamEvent, now: int): (r: EventResult)
    // Only an undecodable POS event is returned as an error, and it changes nothing.
    ensures r.err.Some? <==> IsBadPos(env, ev)
    ensures r.err.Some? ==> r.st == st && r.err.value == env.decodeGtid(ev.transactionId).msg
    // A decodable POS event appends exactly its GTID and sets the lag.
    ensures ev.category == "POS" && env.decodeGtid(ev.transactionId).Decoded? ==>
      r.st == st.(pos := st.pos + [env.decodeGtid(ev.transactionId).gtid], lag := now - ev.timestamp)
    // An event of an unknown category is counted and changes nothing else.
    ensures !IsHandled(ev) && ev.category != "POS" ==> r == EventResult(CountInvalidation(st), None)
    // Handler failures are isolated: counted, swallowed, lag untouched.
    ensures IsHandled(ev) ==>
      var s := RunHandler(env, st, ev);
      && r.err.None?
      && r.st.pos == st.pos
      && (s.outcome.Ok? ==> r.st == s.st.(lag := now - ev.timestamp))
      && (!s.outcome.Ok? ==> r.st.lag == st.lag && r.st.ops == s.st.ops && r.st.tables == s.st.tables)
      && (s.outcome.TabletErr? ==> r.st.errors.invalidation == s.st.errors.invalidation + 1)
      && (s.outcome.OtherFailure? ==> r.st.errors.panic == s.st.errors.panic + 1)
  {
    if IsHandled(ev) then
      var s := RunHandler(env, st, ev);
      HandlersKeepPosition(env, st, ev);
      if s.outcome.Ok? then EventResult(s.st.(lag := now - ev.timestamp), None)
      else EventResult(HandleInvalidationError(s), None)
    else if ev.category == "POS" then
      match env.decodeGtid(ev.transactionId)
      case DecodeError(msg) => EventResult(st, Some(msg))
      case Decoded(g) => EventResult(AppendGtid(st, g).(lag := now - ev.timestamp), None)
    else
      EventResult(CountInvalidation(st), None)
  }

  /** The GTIDs an event appends to the position when it is processed: its
      own for a decodable POS event, none otherwise. */
  function AppendedGtids(env: Env, ev: StreamEvent): (gs: seq<Gtid>)
  {
    if ev.category == "POS" && env.decodeGtid(ev.transactionId).Decoded?
    then [env.decodeGtid(ev.transactionId).gtid] else []
  }

  /** The position moves only on a POS event, and then only forward, by
      exactly the event's GTID. */
  lemma PositionMovesOnlyOnPos(env: Env, st: State, ev: StreamEvent, now: int)
    ensures var r := ProcessEvent(env, st, ev, now);
      r.st.pos == st.pos + (if r.err.None? then AppendedGtids(env, ev) else [])
  {
  }

  /** Every handler failure adds exactly one to the internal-error counters
      and is not reported to the stream. */
  lemma HandlerFailureIsCountedOnce(env: Env, st: State, ev: StreamEvent, now: int)
    requires IsHandled(ev)
    requires !RunHandler(env, st, ev).outcome.Ok?
    ensures var r := ProcessEvent(env, st, ev, now);
      && r.err.None?
      && r.st.errors.invalidation + r.st.errors.panic
         == RunHandler(env, st, ev).st.errors.invalidation + RunHandler(env, st, ev).st.errors.panic + 1
      && r.st.lag == st.lag
  {
  }
}

/** The streaming supervisor: `Open`'s precondition and idempotence checks,
    `Close`, and the run loop that opens a stream from the tracked position,
    feeds its events to the dispatcher, and either exits or counts the
    failure and reopens. The stream transport is an oracle: each attempt
    delivers a sequence of events, then ends cleanly, with an error, or with
    a panic; the running flag is the one read after the attempt returns. */
module Supervisor {
  import opened RowcacheTypes
  import opened Effects
  import opened PositionTracker
  import opened Dispatcher

  /** One event as delivered by the stream, with the wall-clock time of its
      delivery. */
  datatype Delivery = Delivery(event: StreamEvent, now: int)

  /** How the stream ends once it has delivered its events. */
  datatype StreamEnd = EndClean | EndError(msg: string) | EndPanic(value: string)

  /** One stream attempt as the transport plays it out. */
  datatype Attempt = Attempt(deliveries: seq<Delivery>, end: StreamEnd, stillRunning: bool)

  /** The state after delivering events, how many were processed, and the
      error that stopped delivery, if any. */
  datatype Delivered = Delivered(st: State, processed: nat, err: Option<string>)

  /** One attempt of the loop: the state it started from, the state after
      its events, and the error the stream call returned. */
  datatype AttemptResult = AttemptResult(start: State, delivered: State, err: Option<string>)

  /** A run of the loop over the attempts the transport offers: the final
      state, one result per attempt made, and whether the loop exited (as
      opposed to running out of attempts while still retrying). */
  datatype RunResult = RunResult(st: State, trace: seq<AttemptResult>, exited: bool)

  datatype LoopAction = Exit | Retry

  /** The GTIDs of the decodable POS events among `ds`, in order. */
  function PosGtids(env: Env, ds: seq<Delivery>): (gs: seq<Gtid>)
  {
    if |ds| == 0 then [] else AppendedGtids(env, ds[0].event) + PosGtids(env, ds[1..])
  }

  /** Feeds events to the dispatcher in order until one returns an error.
      Only an undecodable POS event stops delivery, so a failing DDL, DML
      or ERR event never keeps the next event from being processed. */
  function Deliver(env: Env, st: State, ds: seq<Delivery>): (r: Delivered)
    ensures r.processed <= |ds|
    ensures r.err.Some? <==> r.processed < |ds|
    ensures r.processed < |ds| ==> IsBadPos(env, ds[r.processed].event)
    ensures forall i :: 0 <= i < r.processed ==> !IsBadPos(env, ds[i].event)
    decreases |ds|
  {
    if |ds| == 0 then
      Delivered(st, 0, None)
    else
      var e := ProcessEvent(env, st, ds[0].event, ds[0].now);
      if e.err.Some? then
        Delivered(st, 0, e.err)
      else
        var rest := Deliver(env, e.st, ds[1..]);
        Delivered(rest.st, rest.processed + 1, rest.err)
  }

  /** After delivery the position holds the start position followed by
      exactly the GTIDs of the POS events processed, in order: the tracked
      position never runs ahead of or behind the events applied. */
  lemma {:induction false} DeliverTracksPosition(env: Env, st: State, ds: seq<Delivery>)
    ensures var r := Deliver(env, st, ds);
      r.st.pos == st.pos + PosGtids(env, ds[..r.processed])
    decreases |ds|
  {
    if |ds| > 0 {
      var e := ProcessEvent(env, st, ds[0].event, ds[0].now);
      PositionMovesOnlyOnPos(env, st, ds[0].event, ds[0].now);
      if e.err.None? {
        DeliverTracksPosition(env, e.st, ds[1..]);
        var rest := Deliver(env, e.st, ds[1..]);
        assert Deliver(env, st, ds) == Delivered(rest.st, rest.processed + 1, rest.err);
        var pre := ds[..rest.processed + 1];
        assert pre[0] == ds[0];
        assert pre[1..] == ds[1..][..rest.processed];
        assert PosGtids(env, pre) == AppendedGtids(env, ds[0].event) + PosGtids(env, ds[1..][..rest.processed]);
      } else {
        assert ds[..0] == [];
      }
    }
  }

  /** Delivery hands the events to the dispatcher one after another: the
      state after the first `k + 1` events is the dispatcher's result on the
      `k`-th event from the state after the first `k`. */
  lemma {:induction false} DeliverProcessesInOrder(env: Env, st: State, ds: seq<Delivery>, k: nat)
    ensures k < Deliver(env, st, ds).processed ==>
      Deliver(env, st, ds[..k + 1]).st
      == ProcessEvent(env, Deliver(env, st, ds[..k]).st, ds[k].event, ds[k].now).st
    decreases |ds|
  {
    if k < Deliver(env, st, ds).processed {
      var e := ProcessEvent(env, st, ds[0].event, ds[0].now);
      assert e.err.None?;
      assert ds[..k + 1][0] == ds[0];
      assert ds[..k + 1][1..] == ds[1..][..k];
      assert Deliver(env, st, ds[..k + 1]).st == Deliver(env, e.st, ds[1..][..k]).st;
      if k == 0 {
        assert ds[..0] == [];
      } else {
        DeliverProcessesInOrder(env, e.st, ds[1..], k - 1);
        assert ds[..k][0] == ds[0];
        assert ds[..k][1..] == ds[1..][..k - 1];
        assert Deliver(env, st, ds[..k]).st == Deliver(env, e.st, ds[1..][..k - 1]).st;
        assert ds[1..][k - 1] == ds[k];
      }
    }
  }

  /** The state delivery ends in is the state after exactly the events it
      processed: the event that stopped it left no trace. */
  lemma {:induction false} DeliverEndsAfterProcessed(env: Env, st: State, ds: seq<Delivery>)
    ensures var r := Deliver(env, st, ds);
      Deliver(env, st, ds[..r.processed]) == Delivered(r.st, r.processed, None)
    decreases |ds|
  {
    if |ds| > 0 {
      var e := ProcessEvent(env, st, ds[0].event, ds[0].now);
      if e.err.None? {
        DeliverEndsAfterProcessed(env, e.st, ds[1..]);
        var rest := Deliver(env, e.st, ds[1..]);
        assert Deliver(env, st, ds) == Delivered(rest.st, rest.processed + 1, rest.err);
        var pre := ds[..rest.processed + 1];
        assert pre[0] == ds[0];
        assert pre[1..] == ds[1..][..rest.processed];
        assert Deliver(env, st, pre) == Delivered(rest.st, rest.processed + 1, None);
      } else {
        assert ds[..0] == [];
      }
    }
  }

  /** The error of one stream call: the dispatcher's error if it stopped
      delivery, otherwise how the stream ended, a panic being turned into a
      non-nil error. */
  function StreamError(d: Delivered, end: StreamEnd): (err: Option<string>)
    ensures d.err.Some? ==> err == d.err
    ensures d.err.None? ==> (err.None? <==> end.EndClean?)
  {
    if d.err.Some? then d.err
    else
      match end
      case EndClean => None
      case EndError(msg) => Some(msg)
      case EndPanic(value) => Some(value + ": uncaught panic")
  }

  /** The loop's decision after a stream call returns: exit on a nil error or
      once the service is no longer running, retry otherwise. */
  function Decide(err: Option<string>, running: bool): (a: LoopAction)
    ensures a == Retry <==> err.Some? && running
  {
    if err.None? || !running then Exit else Retry
  }

  /** One stream attempt, opened from the tracked position of `st`. */
  function RunAttempt(env: Env, st: State, a: Attempt): (r: AttemptResult)
    ensures r.start == st
    // The call returns nil exactly when every event was processed and the
    // stream ended cleanly.
    ensures r.err.None? <==> a.end.EndClean? && Deliver(env, st, a.deliveries).err.None?
  {
    var d := Deliver(env, st, a.deliveries);
    AttemptResult(st, d.st, StreamError(d, a.end))
  }

  /** An attempt leaves the position at its start followed by the GTIDs of
      the POS events it processed, whether or not its call failed. */
  lemma AttemptTracksPosition(env: Env, st: State, a: Attempt)
    ensures Position(RunAttempt(env, st, a).delivered)
      == Position(st) + PosGtids(env, a.deliveries[..Deliver(env, st, a.deliveries).processed])
  {
    DeliverTracksPosition(env, st, a.deliveries);
  }

  /** The run loop over the attempts the transport offers. */
  function Run(env: Env, st: State, attempts: seq<Attempt>): (r: RunResult)
    ensures |r.trace| <= |attempts|
    ensures !r.exited ==> |r.trace| == |attempts|
    ensures r.exited ==> |r.trace| > 0
    // Every attempt is played from the state the loop was in when it opened it.
    ensures forall i :: 0 <= i < |r.trace| ==> r.trace[i] == RunAttempt(env, r.trace[i].start, attempts[i])
    ensures |r.trace| > 0 ==> r.trace[0].start == st
    // Every attempt but the last failed while running, and the next one
    // reopens from the position it reached, one "Invalidation" error later.
    ensures forall i :: 0 <= i < |r.trace| - 1 ==>
      Decide(r.trace[i].err, attempts[i].stillRunning) == Retry
      && r.trace[i + 1].start == CountInvalidation(r.trace[i].delivered)
    // The loop exits exactly when the last attempt's decision says so.
    ensures r.exited <==> |r.trace| > 0 && Decide(r.trace[|r.trace| - 1].err, attempts[|r.trace| - 1].stillRunning) == Exit
    ensures |r.trace| == 0 ==> r.st == st
    ensures |r.trace| > 0 ==>
      r.st == (if r.exited then r.trace[|r.trace| - 1].delivered
               else CountInvalidation(r.trace[|r.trace| - 1].delivered))
    decreases |attempts|
  {
    if |attempts| == 0 then
      RunResult(st, [], false)
    else
      var a := RunAttempt(env, st, attempts[0]);
      if Decide(a.err, attempts[0].stillRunning) == Exit then
        RunResult(a.delivered, [a], true)
      else
        var rest := Run(env, CountInvalidation(a.delivered), attempts[1..]);
        RunResult(rest.st, [a] + rest.trace, rest.exited)
  }

  /** The loop exits only after a nil stream error or once the running
      flag is off; every earlier call failed while running. */
  lemma ExitOnlyWhenCleanOrStopped(env: Env, st: State, attempts: seq<Attempt>)
    ensures var r := Run(env, st, attempts);
      r.exited ==>
      var last := |r.trace| - 1;
      && (r.trace[last].err.None? || !attempts[last].stillRunning)
      && (forall i :: 0 <= i < last ==> r.trace[i].err.Some? && attempts[i].stillRunning)
  {
  }

  /** A stream that ends cleanly after all its events stops the loop for
      good, even though the service is still running: no further attempt is
      made. */
  lemma CleanEndStopsTheLoop(env: Env, st: State, a: Attempt, later: seq<Attempt>)
    requires a.end.EndClean? && Deliver(env, st, a.deliveries).err.None? && a.stillRunning
    ensures var r := Run(env, st, [a] + later);
      r.exited && |r.trace| == 1 && r.st == Deliver(env, st, a.deliveries).st
  {
    assert ([a] + later)[0] == a;
  }

  /** An attempt aborted by an undecodable POS event while the service runs
      is followed by a new attempt, opened from the position the aborted one
      had tracked up to that event: its start position extended by the
      GTIDs of the POS events processed before it. */
  lemma ResumeAfterBadPos(env: Env, st: State, a: Attempt, later: seq<Attempt>)
    requires a.stillRunning && |later| > 0
    ensures var d := Deliver(env, st, a.deliveries);
      d.err.Some? ==>
      var r := Run(env, st, [a] + later);
      && |r.trace| >= 2
      && IsBadPos(env, a.deliveries[d.processed].event)
      && Position(r.trace[1].start) == Position(st) + PosGtids(env, a.deliveries[..d.processed])
  {
    if Deliver(env, st, a.deliveries).err.Some? {
      var attempts := [a] + later;
      assert attempts[0] == a && attempts[1..] == later;
      var first := RunAttempt(env, st, a);
      assert Decide(first.err, a.stillRunning) == Retry;
      var rest := Run(env, CountInvalidation(first.delivered), later);
      assert Run(env, st, attempts).trace == [first] + rest.trace;
      assert rest.trace[0].start == CountInvalidation(first.delivered);
      AttemptTracksPosition(env, st, a);
    }
  }

  /** The service: whether the loop is running, the database it serves,
      and the invalidator state. */
  datatype Service = Service(running: bool, dbname: string, st: State)

  /** The service after `Open`, and the fatal error that aborted it, if
      any. */
  datatype OpenResult = OpenResult(svc: Service, fatal: Option<string>)

  /** Starts the service. `masterPos` is the source's current position
      (None when it cannot be determined), `binlogPath` the configured binlog
      path, `clearErr` the error of clearing the row cache, if any. */
  function Open(svc: Service, dbname: string, masterPos: Option<ReplicationPosition>, binlogPath: string,
                clearErr: Option<string>): (r: OpenResult)
    // Opening a running service is a no-op.
    ensures svc.running ==> r == OpenResult(svc, None)
    // A fatal precondition aborts before anything changes.
    ensures r.fatal.Some? <==> !svc.running && (masterPos.None? || binlogPath == "" || clearErr.Some?)
    ensures r.fatal.Some? ==> r.svc == svc
    // Otherwise the cache is cleared, the position set, and the loop started.
    ensures !svc.running && r.fatal.None? ==>
      && r.svc.running && r.svc.dbname == dbname
      && Position(r.svc.st) == masterPos.value
      && r.svc.st.ops == svc.st.ops + [ClearRowcache]
      && r.svc.st.(pos := svc.st.pos, ops := svc.st.ops) == svc.st
  {
    if svc.running then
      OpenResult(svc, None)
    else if masterPos.None? then
      OpenResult(svc, Some("Rowcache invalidator aborting: cannot determine replication position"))
    else if binlogPath == "" then
      OpenResult(svc, Some("Rowcache invalidator aborting: binlog path not specified"))
    else if clearErr.Some? then
      OpenResult(svc, Some("Rowcache is not reachable"))
    else
      var cleared := svc.st.(ops := svc.st.ops + [ClearRowcache]);
      OpenResult(Service(true, dbname, SetPosition(cleared, masterPos.value)), None)
  }

  /** Stops the service; the loop observes it after its current attempt. */
  function Close(svc: Service): (r: Service)
    ensures !r.running && r.st == svc.st && r.dbname == svc.dbname
  {
    svc.(running := false)
  }

  /** A second `Open` while running changes nothing, whatever it is given. */
  lemma OpenIsIdempotent(svc: Service, dbname: string, masterPos: Option<ReplicationPosition>, binlogPath: string,
                         clearErr: Option<string>, dbname2: string, masterPos2: Option<ReplicationPosition>,
                         binlogPath2: string, clearErr2: Option<string>)
    requires Open(svc, dbname, masterPos, binlogPath, clearErr).fatal.None?
    ensures var first := Open(svc, dbname, masterPos, binlogPath, clearErr);
      Open(first.svc, dbname2, masterPos2, binlogPath2, clearErr2) == first
  {
  }

  /** `Open` after `Close` restarts from the source's current position, not
      from the position the invalidator had tracked before closing. */
  lemma ReopenUsesMasterPosition(svc: Service, dbname: string, masterPos: ReplicationPosition, binlogPath: string)
    requires binlogPath != ""
    ensures var r := Open(Close(svc), dbname, Some(masterPos), binlogPath, None);
      r.fatal.None? && r.svc.running && Position(r.svc.st) == masterPos
  {
  }
}

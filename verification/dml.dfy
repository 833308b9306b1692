/** The DML handler: turns the primary-key tuples of a row-change event into
    deletions from the table's cache partition, and adds the number of
    deletions to the table's invalidation counter once, after all of them. */
module DmlHandler {
  import opened RowcacheTypes
  import opened Effects

  /** Progress through an event's tuples: the state reached, how many
      deletions were issued, and how the last step ended. */
  datatype DmlProgress = DmlProgress(st: State, count: nat, outcome: Outcome)

  /** The validated cache key of every tuple, in event order ("" for a tuple
      that did not validate). */
  function Keys(env: Env, table: string, tuples: seq<PkTuple>): (ks: seq<string>)
  {
    seq(|tuples|, i requires 0 <= i < |tuples| => env.cacheKey(table, tuples[i]))
  }

  /** The keys that validated, in order. */
  function NonEmptyKeys(ks: seq<string>): (r: seq<string>)
    ensures "" !in r
  {
    if |ks| == 0 then []
    else if ks[0] == "" then NonEmptyKeys(ks[1..])
    else [ks[0]] + NonEmptyKeys(ks[1..])
  }

  /** One deletion per key, in order. */
  function DeletesOf(table: string, ks: seq<string>): (ops: seq<Op>)
  {
    seq(|ks|, i requires 0 <= i < |ks| => Delete(table, ks[i]))
  }

  /** The deletions a DML event on a cached table calls for: one per tuple
      whose validated key is non-empty, in event order. */
  function ExpectedDeletes(env: Env, table: string, tuples: seq<PkTuple>): (ops: seq<Op>)
  {
    DeletesOf(table, NonEmptyKeys(Keys(env, table, tuples)))
  }

  /** Every non-empty key keeps its multiplicity; the empty key is gone. */
  lemma {:induction false} NonEmptyKeysCounts(ks: seq<string>)
    ensures forall k :: k != "" ==> multiset(NonEmptyKeys(ks))[k] == multiset(ks)[k]
    ensures |NonEmptyKeys(ks)| == |ks| - multiset(ks)[""]
  {
    if |ks| > 0 {
      NonEmptyKeysCounts(ks[1..]);
      assert ks == [ks[0]] + ks[1..];
    }
  }

  lemma {:induction false} DeletesOfCounts(table: string, ks: seq<string>)
    ensures forall k :: multiset(DeletesOf(table, ks))[Delete(table, k)] == multiset(ks)[k]
    ensures forall op :: op in DeletesOf(table, ks) ==> op.Delete? && op.table == table && op.key in ks
  {
    if |ks| > 0 {
      DeletesOfCounts(table, ks[1..]);
      assert ks == [ks[0]] + ks[1..];
      assert DeletesOf(table, ks) == [Delete(table, ks[0])] + DeletesOf(table, ks[1..]);
    }
  }

  /** What the expected deletions are, stated without the filter: only
      deletions from `table` of non-empty keys, and for each non-empty key
      exactly as many deletions as tuples validating to it. */
  lemma ExpectedDeletesExact(env: Env, table: string, tuples: seq<PkTuple>)
    ensures forall op :: op in ExpectedDeletes(env, table, tuples) ==>
      op.Delete? && op.table == table && op.key != ""
    ensures forall k :: k != "" ==>
      multiset(ExpectedDeletes(env, table, tuples))[Delete(table, k)] == multiset(Keys(env, table, tuples))[k]
    ensures |ExpectedDeletes(env, table, tuples)| == |tuples| - multiset(Keys(env, table, tuples))[""]
  {
    var ks := Keys(env, table, tuples);
    NonEmptyKeysCounts(ks);
    DeletesOfCounts(table, NonEmptyKeys(ks));
  }

  /** The expected deletions of the first tuple followed by those of the
      rest. */
  lemma ExpectedDeletesUnfold(env: Env, table: string, tuples: seq<PkTuple>)
    requires |tuples| > 0
    ensures var k := env.cacheKey(table, tuples[0]);
      ExpectedDeletes(env, table, tuples)
      == (if k == "" then [] else [Delete(table, k)]) + ExpectedDeletes(env, table, tuples[1..])
  {
    var ks := Keys(env, table, tuples);
    assert ks[1..] == Keys(env, table, tuples[1..]);
    var rest := NonEmptyKeys(ks[1..]);
    if ks[0] != "" {
      assert DeletesOf(table, [ks[0]] + rest) == [Delete(table, ks[0])] + DeletesOf(table, rest);
    }
  }

  /** The loop over the tuples: one deletion per tuple whose key validated,
      in order, stopping where a deletion panics; `count` is the number of
      deletions issued. */
  function DeleteEach(env: Env, st: State, table: string, tuples: seq<PkTuple>): (r: DmlProgress)
    ensures IssuedInOrder(env, st, ExpectedDeletes(env, table, tuples), Step(r.st, r.outcome))
    ensures |r.st.ops| == |st.ops| + r.count
    ensures r.outcome.Ok? ==> r.count == |ExpectedDeletes(env, table, tuples)|
    decreases |tuples|
  {
    if |tuples| == 0 then
      IssuedNothing(env, st);
      DmlProgress(st, 0, Ok)
    else
      var key := env.cacheKey(table, tuples[0]);
      ExpectedDeletesUnfold(env, table, tuples);
      if key == "" then
        assert ExpectedDeletes(env, table, tuples) == ExpectedDeletes(env, table, tuples[1..]);
        DeleteEach(env, st, table, tuples[1..])
      else
        var rest := ExpectedDeletes(env, table, tuples[1..]);
        var s := Perform(env, st, Delete(table, key));
        if !s.outcome.Ok? then
          IssuedStopsEarly(env, st, [Delete(table, key)], rest, s);
          DmlProgress(s.st, 0, s.outcome)
        else
          var p := DeleteEach(env, s.st, table, tuples[1..]);
          IssuedThen(env, st, [Delete(table, key)], rest, s, Step(p.st, p.outcome));
          DmlProgress(p.st, p.count + 1, p.outcome)
  }

  /** Handles a DML event. An unknown table is a BAD_INPUT TabletError; a
      table with cache policy NONE is left alone; otherwise the expected
      deletions are issued and, if none of them panicked, the table's
      counter rises by their number. */
  function HandleDmlEvent(env: Env, st: State, ev: StreamEvent): (r: Step)
    ensures ev.tableName !in st.tables ==> r == Step(st, TabletErr(BadInput))
    ensures ev.tableName in st.tables && st.tables[ev.tableName].cacheType == CacheNone ==>
      r == Step(st, Ok)
    ensures ev.tableName in st.tables && st.tables[ev.tableName].cacheType != CacheNone ==>
      var info := st.tables[ev.tableName];
      var expected := ExpectedDeletes(env, ev.tableName, ev.pkValues);
      && IssuedInOrder(env, st, expected, Step(r.st.(tables := st.tables), r.outcome))
      && r.st.tables == (if r.outcome.Ok?
                         then st.tables[ev.tableName := info.(invalidations := info.invalidations + |expected|)]
                         else st.tables)
  {
    if ev.tableName !in st.tables then
      Step(st, TabletErr(BadInput))
    else
      var info := st.tables[ev.tableName];
      if info.cacheType == CacheNone then
        Step(st, Ok)
      else
        var p := DeleteEach(env, st, ev.tableName, ev.pkValues);
        if p.outcome.Ok? then
          var counted := info.(invalidations := info.invalidations + p.count);
          Step(p.st.(tables := p.st.tables[ev.tableName := counted]), Ok)
        else
          Step(p.st, p.outcome)
  }

  /** When no deletion panics, a DML event on a cached table deletes exactly
      the expected keys, and the counter rises by that number. */
  lemma DmlDeletesAll(env: Env, st: State, ev: StreamEvent)
    requires ev.tableName in st.tables && st.tables[ev.tableName].cacheType != CacheNone
    requires AllSucceed(env, ExpectedDeletes(env, ev.tableName, ev.pkValues))
    ensures var r := HandleDmlEvent(env, st, ev);
      var info := st.tables[ev.tableName];
      var expected := ExpectedDeletes(env, ev.tableName, ev.pkValues);
      && r.outcome == Ok
      && r.st.ops == st.ops + expected
      && r.st.tables[ev.tableName].invalidations == info.invalidations + |expected|
      && r.st.pos == st.pos && r.st.errors == st.errors && r.st.lag == st.lag
  {
  }
}

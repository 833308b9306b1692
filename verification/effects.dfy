/** Issuing operations against the cache and schema collaborators. An
    operation either succeeds and is appended to the operation log, or its
    collaborator panics, in which case it leaves no trace and nothing after
    it in the same handler runs (the panic unwinds to the dispatcher). */
module Effects {
  import opened RowcacheTypes

  /** Every operation of `ops` succeeds in `env`. */
  ghost predicate AllSucceed(env: Env, ops: seq<Op>)
  {
    forall i :: 0 <= i < |ops| ==> env.fault(ops[i]).Ok?
  }

  /** `r` is the result of issuing `ops` from `st` in order when exactly the
      first `n` of them succeed. */
  ghost predicate IssuedPrefix(env: Env, st: State, ops: seq<Op>, r: Step, n: nat)
    requires n <= |ops|
  {
    && AllSucceed(env, ops[..n])
    && r.st == st.(ops := st.ops + ops[..n])
    && (if n == |ops| then r.outcome == Ok
        else r.outcome == env.fault(ops[n]) && !r.outcome.Ok?)
  }

  /** `r` is the result of issuing `ops` from `st` in order, stopping at the
      first one whose collaborator fails. At most one `r` satisfies it
      (`IssuedInOrderUnique`), so a contract stated with it fixes the
      handler's result completely. */
  ghost predicate IssuedInOrder(env: Env, st: State, ops: seq<Op>, r: Step)
  {
    exists n: nat :: n <= |ops| && IssuedPrefix(env, st, ops, r, n)
  }

  /** Issues one operation. */
  function Perform(env: Env, st: State, op: Op): (r: Step)
    ensures IssuedInOrder(env, st, [op], r)
    ensures r.outcome == env.fault(op)
    ensures r.st.ops == if r.outcome.Ok? then st.ops + [op] else st.ops
  {
    if env.fault(op).Ok? then
      var r := Step(st.(ops := st.ops + [op]), Ok);
      assert IssuedPrefix(env, st, [op], r, 1);
      r
    else
      var r := Step(st, env.fault(op));
      assert IssuedPrefix(env, st, [op], r, 0);
      r
  }

  /** Issuing nothing changes nothing. */
  lemma IssuedNothing(env: Env, st: State)
    ensures IssuedInOrder(env, st, [], Step(st, Ok))
  {
    assert IssuedPrefix(env, st, [], Step(st, Ok), 0);
  }

  /** The result of issuing a sequence is determined by the sequence: when
      all succeed it is the full log with `Ok`, otherwise the log up to the
      first failure with that failure. */
  lemma {:induction false} IssuedInOrderUnique(env: Env, st: State, ops: seq<Op>, r1: Step, r2: Step)
    requires IssuedInOrder(env, st, ops, r1)
    requires IssuedInOrder(env, st, ops, r2)
    ensures r1 == r2
  {
  }

  /** A failure while issuing `a` ends the whole sequence `a + b` there. */
  lemma {:induction false} IssuedStopsEarly(env: Env, st: State, a: seq<Op>, b: seq<Op>, s: Step)
    requires IssuedInOrder(env, st, a, s)
    requires !s.outcome.Ok?
    ensures IssuedInOrder(env, st, a + b, s)
  {
    var n: nat :| n <= |a| && IssuedPrefix(env, st, a, s, n);
    assert n < |a|;
    assert (a + b)[..n] == a[..n];
    assert (a + b)[n] == a[n];
    assert IssuedPrefix(env, st, a + b, s, n);
  }

  /** Issuing `a` successfully and then `b` is issuing `a + b`. */
  lemma {:induction false} IssuedThen(env: Env, st: State, a: seq<Op>, b: seq<Op>, s: Step, r: Step)
    requires IssuedInOrder(env, st, a, s)
    requires s.outcome.Ok?
    requires IssuedInOrder(env, s.st, b, r)
    ensures IssuedInOrder(env, st, a + b, r)
  {
    var n: nat :| n <= |a| && IssuedPrefix(env, st, a, s, n);
    assert n == |a|;
    assert a[..n] == a;
    var m: nat :| m <= |b| && IssuedPrefix(env, s.st, b, r, m);
    var ab := a + b;
    var done := a + b[..m];
    assert ab[..|a| + m] == done;
    forall i | 0 <= i < |done|
      ensures env.fault(done[i]).Ok?
    {
      if i < |a| {
        assert done[i] == a[..n][i];
      } else {
        assert done[i] == b[..m][i - |a|];
      }
    }
    if m < |b| {
      assert ab[|a| + m] == b[m];
    }
    assert IssuedPrefix(env, st, ab, r, |a| + m);
  }

  /** Adds one to the "Invalidation" internal-error counter. */
  function CountInvalidation(st: State): (r: State)
    ensures r.errors.invalidation == st.errors.invalidation + 1
    ensures r.(errors := st.errors) == st && r.errors.panic == st.errors.panic
  {
    st.(errors := st.errors.(invalidation := st.errors.invalidation + 1))
  }

  /** Adds one to the "Panic" internal-error counter. */
  function CountPanic(st: State): (r: State)
    ensures r.errors.panic == st.errors.panic + 1
    ensures r.(errors := st.errors) == st && r.errors.invalidation == st.errors.invalidation
  {
    st.(errors := st.errors.(panic := st.errors.panic + 1))
  }
}

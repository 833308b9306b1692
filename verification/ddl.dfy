/** The DDL handler: from the parsed plan of a schema-change statement, drops
    the old table when the statement dropped or renamed it, then creates or
    refreshes the table under its new name. */
module DdlHandler {
  import opened RowcacheTypes
  import opened Effects

  /** The schema operations a plan calls for, in the order they must be
      issued. */
  function DdlOps(plan: DdlPlan): (ops: seq<Op>)
    ensures DropTable(plan.tableName) in ops <==> plan.tableName != "" && plan.tableName != plan.newName
    ensures CreateOrUpdateTable(plan.newName) in ops <==> plan.newName != ""
    ensures forall op :: op in ops ==> op == DropTable(plan.tableName) || op == CreateOrUpdateTable(plan.newName)
    ensures forall i, j :: 0 <= i < |ops| && 0 <= j < |ops| && ops[i].DropTable? && ops[j].CreateOrUpdateTable? ==> i < j
    ensures |ops| <= 2 && (|ops| == 2 ==> ops[0] != ops[1])
  {
    var drop := if plan.tableName != "" && plan.tableName != plan.newName then [DropTable(plan.tableName)] else [];
    var create := if plan.newName != "" then [CreateOrUpdateTable(plan.newName)] else [];
    drop + create
  }

  /** Handles a DDL statement: a plan without an action is a BAD_INPUT
      TabletError with no schema operation; otherwise the plan's operations
      are issued in order, stopping at the first that panics. */
  function HandleDdlEvent(env: Env, st: State, sql: string): (r: Step)
    ensures env.ddlParse(sql).action == "" ==> r == Step(st, TabletErr(BadInput))
    ensures env.ddlParse(sql).action != "" ==> IssuedInOrder(env, st, DdlOps(env.ddlParse(sql)), r)
  {
    var plan := env.ddlParse(sql);
    if plan.action == "" then
      Step(st, TabletErr(BadInput))
    else
      var drop := if plan.tableName != "" && plan.tableName != plan.newName then [DropTable(plan.tableName)] else [];
      var create := if plan.newName != "" then [CreateOrUpdateTable(plan.newName)] else [];
      assert DdlOps(plan) == drop + create;
      var dropped := if drop != [] then Perform(env, st, DropTable(plan.tableName)) else Step(st, Ok);
      IssuedNothing(env, st);
      if !dropped.outcome.Ok? then
        IssuedStopsEarly(env, st, drop, create, dropped);
        dropped
      else if create != [] then
        var created := Perform(env, dropped.st, CreateOrUpdateTable(plan.newName));
        IssuedThen(env, st, drop, create, dropped, created);
        created
      else
        assert drop + create == drop;
        dropped
  }

  /** A rename whose schema operations do not panic drops the old name and
      then loads the new one, and nothing else. */
  lemma RenameDropsThenCreates(env: Env, st: State, sql: string)
    requires var plan := env.ddlParse(sql);
      plan.action != "" && plan.tableName != "" && plan.newName != "" && plan.tableName != plan.newName
    requires env.fault(DropTable(env.ddlParse(sql).tableName)).Ok?
    requires env.fault(CreateOrUpdateTable(env.ddlParse(sql).newName)).Ok?
    ensures var plan := env.ddlParse(sql);
      HandleDdlEvent(env, st, sql)
      == Step(st.(ops := st.ops + [DropTable(plan.tableName), CreateOrUpdateTable(plan.newName)]), Ok)
  {
  }

  /** A create (no old name) whose load does not panic loads the new name
      and drops nothing. */
  lemma CreateOnlyCreates(env: Env, st: State, sql: string)
    requires var plan := env.ddlParse(sql);
      plan.action != "" && plan.tableName == "" && plan.newName != ""
    requires env.fault(CreateOrUpdateTable(env.ddlParse(sql).newName)).Ok?
    ensures HandleDdlEvent(env, st, sql)
      == Step(st.(ops := st.ops + [CreateOrUpdateTable(env.ddlParse(sql).newName)]), Ok)
  {
  }
}

/**
 The planner and the executor of app/services/ddl.py as they run: a plan object that is appended to
 in nested loops, and deployed tables that statements are executed against in order.
 */
module MigrationEngine {
  import opened Common
  import opened TypeSystem
  import opened Identifiers
  import opened Migration

  /** A reviewable set of statements, with risk classification. */
  class DDLPlan {
    var statements: seq<Statement>
    var warnings: seq<Warning>
    var destructive: seq<Danger>

    constructor ()
      ensures Contents() == NOTHING
    {
      statements, warnings, destructive := [], [], [];
    }

    function Contents(): Plan
      reads this
    {
      Plan(statements, warnings, destructive)
    }

    method Add(stmt: Statement)
      modifies this`statements
      ensures Contents() == old(Contents()).Then(Plan([stmt], [], []))
    {
      statements := statements + [stmt];
    }

    method AddAll(stmts: seq<Statement>)
      modifies this`statements
      ensures Contents() == old(Contents()).Then(Plan(stmts, [], []))
    {
      ghost var start := Contents();
      for i := 0 to |stmts|
        invariant Contents() == start.Then(Plan(stmts[..i], [], []))
      {
        Add(stmts[i]);
        assert stmts[..i + 1] == stmts[..i] + [stmts[i]];
      }
      assert stmts[..|stmts|] == stmts;
    }

    /** Returns false, the plan unusable, where rendering raises; so do the methods below. */
    method PlanAddition(tier: Tier, existing: seq<Column>, col: ColumnDef) returns (ok: bool)
      modifies this
      ensures ok <==> AdditionRenders(existing, col)
      ensures ok ==> Contents() == old(Contents()).Then(Addition(tier, existing, col))
    {
      if Find(existing, col.name).Some? {
        return true;
      }
      var pg := Rendered(col);
      if pg.None? {
        return false;
      }
      var enforced := tier == Live && col.required;
      if HasDefault(col) {
        var clause := RenderedDefault(col.dataType, col.default.value, col.numericDefault);
        if clause.None? {
          return false;
        }
        Add(AddColumn(tier, Column(col.name, pg.value, enforced), col.default));
      } else {
        if enforced {
          warnings := warnings + [AddedNullable(tier, col.name)];
        }
        Add(AddColumn(tier, Column(col.name, pg.value, false), None));
      }
      return true;
    }

    method PlanAdditions(tier: Tier, existing: seq<Column>, cols: seq<ColumnDef>) returns (ok: bool)
      modifies this
      ensures ok <==> forall c :: c in cols ==> AdditionRenders(existing, c)
      ensures ok ==> Contents() == old(Contents()).Then(Additions(tier, existing, cols))
    {
      hide AdditionRenders, Addition;
      ghost var start := Contents();
      ThenThen(start, NOTHING, NOTHING);
      for i := 0 to |cols|
        invariant Contents() == start.Then(Additions(tier, existing, cols[..i]))
        invariant forall j :: 0 <= j < i ==> AdditionRenders(existing, cols[j])
      {
        assert cols[..i + 1][..i] == cols[..i];
        ok := PlanAddition(tier, existing, cols[i]);
        if !ok {
          assert cols[i] in cols;
          return false;
        }
        ThenThen(start, Additions(tier, existing, cols[..i]), Addition(tier, existing, cols[i]));
      }
      assert cols[..|cols|] == cols;
      return true;
    }

    method PlanRetyping(tier: Tier, existing: seq<Column>, col: ColumnDef) returns (ok: bool)
      modifies this
      ensures ok <==> RetypingRenders(existing, col)
      ensures ok ==> Contents() == old(Contents()).Then(Retyping(tier, existing, col))
    {
      hide SafeWidening, LogicalOf, PgTypeOf;
      var cur := Find(existing, col.name);
      if cur.None? || LogicalOf(cur.value.pg).None? {
        return true;
      }
      var logical, desired := LogicalOf(cur.value.pg).value, Rendered(col);
      if desired.None? {
        return false;
      }
      if desired.value == cur.value.pg {
        return true;
      }
      if SafeWidening(logical, LengthOf(cur.value.pg), col.dataType, col.length) {
        Add(AlterType(tier, col.name, desired.value));
      } else {
        destructive := destructive + [Narrowing(tier, col.name, cur.value.pg, desired.value)];
      }
      return true;
    }

    method PlanRetypings(tier: Tier, existing: seq<Column>, cols: seq<ColumnDef>) returns (ok: bool)
      modifies this
      ensures ok <==> forall c :: c in cols ==> RetypingRenders(existing, c)
      ensures ok ==> Contents() == old(Contents()).Then(Retypings(tier, existing, cols))
    {
      hide RetypingRenders, Retyping;
      ghost var start := Contents();
      ThenThen(start, NOTHING, NOTHING);
      for i := 0 to |cols|
        invariant Contents() == start.Then(Retypings(tier, existing, cols[..i]))
        invariant forall j :: 0 <= j < i ==> RetypingRenders(existing, cols[j])
      {
        assert cols[..i + 1][..i] == cols[..i];
        ok := PlanRetyping(tier, existing, cols[i]);
        if !ok {
          assert cols[i] in cols;
          return false;
        }
        ThenThen(start, Retypings(tier, existing, cols[..i]), Retyping(tier, existing, cols[i]));
      }
      assert cols[..|cols|] == cols;
      return true;
    }

    method PlanIndexes(name: string, cols: seq<ColumnDef>)
      modifies this`statements
      ensures Contents() == old(Contents()).Then(Plan(ColumnIndexes(name, cols), [], []))
    {
      hide ColumnIndex;
      ghost var start := Contents();
      for i := 0 to |cols|
        invariant Contents() == start.Then(Plan(ColumnIndexes(name, cols[..i]), [], []))
      {
        assert cols[..i + 1][..i] == cols[..i];
        AddAll(ColumnIndex(name, cols[i]));
      }
      assert cols[..|cols|] == cols;
    }

    method PlanRemovals(tier: Tier, cols: seq<ColumnDef>, existing: seq<Column>)
      modifies this`destructive
      ensures Contents() == old(Contents()).Then(Plan([], [], Removed(tier, cols, existing)))
    {
      ghost var start := Contents();
      for i := 0 to |existing|
        invariant Contents() == start.Then(Plan([], [], Removed(tier, cols, existing[..i])))
      {
        assert existing[..i + 1][..i] == existing[..i];
        if !SystemName(existing[i].name) && !InModel(cols, existing[i].name) {
          destructive := destructive + [Removal(tier, existing[i].name)];
        }
      }
      assert existing[..|existing|] == existing;
    }
  }

  /** Adding two plans one after the other is adding them together. */
  lemma ThenThen(a: Plan, b: Plan, c: Plan)
    ensures a.Then(b).Then(c) == a.Then(b.Then(c))
    ensures a.Then(NOTHING) == a && NOTHING.Then(a) == a
  {
    assert a.statements + b.statements + c.statements == a.statements + (b.statements + c.statements);
    assert a.warnings + b.warnings + c.warnings == a.warnings + (b.warnings + c.warnings);
    assert a.destructive + b.destructive + c.destructive == a.destructive + (b.destructive + c.destructive);
  }

  /** The columns of a table under construction, rendered one by one; None where rendering raises. */
  method RenderColumns(tier: Tier, cols: seq<ColumnDef>) returns (columns: Option<seq<Column>>)
    ensures columns.Some? <==> tier == Landing || forall c :: c in cols ==> ColumnRenders(c)
    ensures columns.Some? ==> columns.value == BusinessColumns(tier, cols)
  {
    hide PgTypeOf, RenderedDefault;
    if tier == Landing {
      return Some([]);
    }
    var done: seq<Column> := [];
    for i := 0 to |cols|
      invariant done == BusinessColumns(tier, cols)[..i]
      invariant forall j :: 0 <= j < i ==> ColumnRenders(cols[j])
    {
      var pg := Rendered(cols[i]);
      if pg.None? {
        assert cols[i] in cols;
        return None;
      }
      if HasDefault(cols[i]) && RenderedDefault(cols[i].dataType, cols[i].default.value, cols[i].numericDefault).None? {
        assert cols[i] in cols;
        return None;
      }
      done := done + [Column(cols[i].name, pg.value, tier == Live && cols[i].required)];
    }
    assert done == BusinessColumns(tier, cols);
    return Some(done);
  }

  /** The statements of one builder: the table, its column indexes if it is live, its own indexes. */
  method BuildTier(tier: Tier, name: string, cols: seq<ColumnDef>) returns (stmts: Option<seq<Statement>>)
    ensures stmts.Some? <==> tier == Landing || forall c :: c in cols ==> ColumnRenders(c)
    ensures stmts.Some? ==> stmts.value == Creation(tier, name, cols)
  {
    hide ColumnRenders, BusinessColumns, SystemColumns, FixedIndexes, ColumnIndex;
    var columns := RenderColumns(tier, cols);
    if columns.None? {
      return None;
    }
    var built := [CreateTable(tier, SystemColumns(tier) + columns.value)];
    if tier == Live {
      for i := 0 to |cols|
        invariant built == [CreateTable(tier, SystemColumns(tier) + columns.value)] + ColumnIndexes(name, cols[..i])
      {
        assert cols[..i + 1][..i] == cols[..i];
        built := built + ColumnIndex(name, cols[i]);
      }
      assert cols[..|cols|] == cols;
    }
    return Some(built + FixedIndexes(tier, name));
  }

  /** The plan of an entity that was never deployed: the four builders, then two warnings. */
  method BuildCreatePlan(name: string, cols: seq<ColumnDef>, matchKey: bool, businessKey: bool) returns (plan: DDLPlan,
      ok: bool)
    ensures fresh(plan)
    ensures ok <==> Plannable(map[], cols)
    ensures ok ==> plan.Contents() == CreatePlan(name, cols, matchKey, businessKey)
  {
    hide ColumnRenders, Creation;
    plan := new DDLPlan();
    NothingToRender(cols);
    if cols == [] {
      return plan, false;
    }
    var landing := BuildTier(Landing, name, cols);
    var staging := BuildTier(Staging, name, cols);
    if staging.None? {
      return plan, false;
    }
    var live := BuildTier(Live, name, cols);
    var history := BuildTier(History, name, cols);
    plan.AddAll(landing.value + staging.value + live.value + history.value);
    if !matchKey {
      plan.warnings := plan.warnings + [NoMatchKeyDefined];
    }
    if !businessKey {
      plan.warnings := plan.warnings + [NoBusinessKeyDefined];
    }
    return plan, true;
  }

  /** With nothing deployed, every column is rendered. */
  lemma NothingToRender(cols: seq<ColumnDef>)
    ensures Plannable(map[], cols) <==> cols != [] && forall c :: c in cols ==> ColumnRenders(c)
  {
    hide ColumnRenders;
    var db: Schema := map[];
    if Plannable(db, cols) {
      assert TierRenders(db, cols, Staging);
    }
  }

  class Database {
    var tables: Schema

    constructor ()
      ensures tables == map[]
    {
      tables := map[];
    }

    method PlanTier(plan: DDLPlan, name: string, cols: seq<ColumnDef>, tier: Tier) returns (ok: bool)
      modifies plan
      ensures ok <==> TierRenders(tables, cols, tier)
      ensures ok ==> plan.Contents() == old(plan.Contents()).Then(TierPlan(tables, name, cols, tier))
    {
      hide AdditionRenders, RetypingRenders, ColumnRenders, Creation, Additions, Retypings, Removed, ColumnIndexes,
        ColumnIndex;
      ghost var start := plan.Contents();
      if tier !in tables {
        var stmts := BuildTier(tier, name, cols);
        if stmts.None? {
          return false;
        }
        plan.AddAll(stmts.value);
        return true;
      }
      if tier == Landing {
        ThenThen(start, NOTHING, NOTHING);
        return true;
      }
      ok := PlanDeployed(plan, name, cols, tier);
    }

    /** A table that is there: additions, type changes, removals, and on live the indexes. */
    method PlanDeployed(plan: DDLPlan, name: string, cols: seq<ColumnDef>, tier: Tier) returns (ok: bool)
      requires tier in tables && tier != Landing
      modifies plan
      ensures ok <==> TierRenders(tables, cols, tier)
      ensures ok ==> plan.Contents() == old(plan.Contents()).Then(TierPlan(tables, name, cols, tier))
    {
      hide AdditionRenders, RetypingRenders, ColumnRenders, Creation, Additions, Retypings, Removed, ColumnIndexes,
        ColumnIndex;
      ghost var start := plan.Contents();
      var existing := tables[tier].columns;
      ok := plan.PlanAdditions(tier, existing, cols);
      if !ok {
        return false;
      }
      ghost var a := Additions(tier, existing, cols);
      ok := plan.PlanRetypings(tier, existing, cols);
      if !ok {
        return false;
      }
      ghost var b := Retypings(tier, existing, cols);
      plan.PlanRemovals(tier, cols, existing);
      ghost var c := Plan([], [], Removed(tier, cols, existing));
      ghost var d := Plan(if tier == Live then ColumnIndexes(name, cols) else [], [], []);
      if tier == Live {
        plan.PlanIndexes(name, cols);
      } else {
        ThenThen(start.Then(a).Then(b).Then(c), NOTHING, NOTHING);
      }
      assert plan.Contents() == start.Then(a).Then(b).Then(c).Then(d);
      ThenThen(start, a, b);
      ThenThen(start, a.Then(b), c);
      ThenThen(start, a.Then(b).Then(c), d);
      return true;
    }

    /** Diff the model against the deployed tables; a type or default that cannot be rendered stops the planning. */
    method BuildAlterPlan(name: string, cols: seq<ColumnDef>) returns (plan: DDLPlan, ok: bool)
      ensures fresh(plan) && tables == old(tables)
      ensures ok <==> Plannable(tables, cols)
      ensures ok ==> plan.Contents() == AlterPlan(tables, name, cols)
    {
      hide TierPlan, TierRenders;
      plan := new DDLPlan();
      if cols == [] {
        return plan, false;
      }
      for i := 0 to |TIERS|
        invariant plan.Contents() == PlanUpTo(tables, name, cols, i)
        invariant forall j :: 0 <= j < i ==> TierRenders(tables, cols, TIERS[j])
      {
        ok := PlanTier(plan, name, cols, TIERS[i]);
        if !ok {
          return plan, false;
        }
      }
      forall tier ensures TierRenders(tables, cols, tier) {
        AllTiers(tier);
      }
      return plan, true;
    }

    /** One transaction: every statement in order, or none. */
    method ApplyPlan(plan: DDLPlan, allowDestructive: bool) returns (outcome: Applied)
      modifies this
      ensures outcome == ApplyOutcome(old(tables), plan.Contents(), allowDestructive)
      ensures tables == Migration.ApplyPlan(old(tables), plan.Contents(), allowDestructive)
    {
      hide Execute;
      if plan.destructive != [] && !allowDestructive {
        return RefusedDestructive;
      }
      var saved, stmts := tables, plan.statements;
      for i := 0 to |stmts|
        invariant ExecuteAll(saved, stmts[..i]) == Some(tables)
        invariant plan.statements == stmts && plan.destructive == old(plan.destructive)
      {
        assert stmts[..i + 1][..i] == stmts[..i];
        var next := Execute(tables, stmts[i]);
        if next.None? {
          FailedForGood(saved, stmts, i + 1);
          tables := saved;
          return Failed;
        }
        tables := next.value;
      }
      assert stmts[..|stmts|] == stmts;
      return Done(|stmts|);
    }
  }

  lemma AllTiers(tier: Tier)
    ensures exists j :: 0 <= j < |TIERS| && TIERS[j] == tier
  {
    assert TIERS[0] == Landing && TIERS[1] == Staging && TIERS[2] == Live && TIERS[3] == History;
  }

  lemma {:induction false} FailedForGood(db: Schema, stmts: seq<Statement>, n: nat)
    requires n <= |stmts| && ExecuteAll(db, stmts[..n]).None?
    ensures ExecuteAll(db, stmts).None?
    decreases |stmts|
  {
    if n < |stmts| {
      assert stmts[..|stmts| - 1][..n] == stmts[..n];
      FailedForGood(db, stmts[..|stmts| - 1], n);
    } else {
      assert stmts[..n] == stmts;
    }
  }
}

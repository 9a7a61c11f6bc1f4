/**
 The publish endpoint as it runs (app/api/v1/models_api.py `publish_entity` with
 app/services/ddl.py `columns_from_entity`): plan, confirm, execute, and only then mark the
 version published.
 */
module Publisher {
  import opened Common
  import opened Identifiers
  import opened Migration
  import opened MigrationEngine
  import opened Publishing
  import DefinitionStore

  /** The attributes become columns one by one; None where a name or type is refused. */
  method ColumnsFromEntity(listed: seq<Documents.AttrDef>,
                           isNumber: string -> bool) returns (cols: Option<seq<ColumnDef>>)
    ensures cols.Some? <==> Projects(listed, isNumber)
    ensures cols.Some? ==> cols.value == ColumnsOf(listed, isNumber)
  {
    hide ColumnOf;
    var done: seq<ColumnDef> := [];
    for i := 0 to |listed|
      invariant Projects(listed[..i], isNumber) && done == ColumnsOf(listed[..i], isNumber)
    {
      var column := ColumnOf(listed[i], isNumber);
      if column.None? {
        assert listed[i] in listed;
        return None;
      }
      assert listed[..i + 1] == listed[..i] + [listed[i]];
      done := done + [column.value];
    }
    assert listed[..|listed|] == listed;
    return Some(done);
  }

  /** The plan of a publish: from the deployed tables, or from nothing for an entity never published. */
  method BuildPlan(db: Database, r: Definitions.EntityRec, listed: seq<Documents.AttrDef>, isNumber: string -> bool)
    returns (plan: DDLPlan, ok: bool)
    ensures fresh(plan) && db.tables == old(db.tables)
    ensures var w := Publishing.World(Definitions.NO_ENTITIES, map[r.head.name := db.tables], map[]);
      && (ok <==> PlanOf(w, r, listed, isNumber).Some?)
      && (ok ==> plan.Contents() == PlanOf(w, r, listed, isNumber).value)
  {
    hide Plannable, ColumnsOf, Projects, AlterPlan, CreatePlan, ValidIdent;
    plan := new DDLPlan();
    if ValidIdent(r.head.name) != Some(r.head.name) {
      return plan, false;
    }
    var cols := ColumnsFromEntity(listed, isNumber);
    if cols.None? {
      return plan, false;
    }
    if IsDeployed(r) {
      plan, ok := db.BuildAlterPlan(r.head.name, cols.value);
    } else {
      plan, ok := BuildCreatePlan(r.head.name, cols.value, HasMatchKey(listed), Documents.HasBusinessKey(listed));
    }
  }

  /** A publish that gets through leaves the tables of its plan and marks the version; any other changes nothing. */
  method PublishEntity(store: DefinitionStore.Store, db: Database, name: string, listed: seq<Documents.AttrDef>,
                       dryRun: bool, confirmed: bool, isNumber: string -> bool) returns (published: bool)
    requires name in store.entities ==> store.entities[name].head.name == name
    modifies store, db
    ensures name !in old(store.entities)
       ==> !published && store.Contents() == old(store.Contents()) && db.tables == old(db.tables)
    ensures name in old(store.entities) ==>
      var w := Publishing.World(old(store.Contents()), map[name := old(db.tables)], map[]);
      var after := Deployment(w, name, listed, dryRun, confirmed, isNumber);
      && store.Contents() == after.catalog && db.tables == after.tables[name]
      && (published <==> name in after.dangers)
  {
    hide PlanOf, Migration.ApplyPlan, ApplyOutcome, Definitions.Handle, Deployment;
    if name !in store.entities {
      return false;
    }
    var r := store.entities[name];
    ghost var w := Publishing.World(store.Contents(), map[name := db.tables], map[]);
    DeploymentCases(w, name, listed, dryRun, confirmed, isNumber);
    SamePlan(w, r, listed, isNumber);
    var plan, ok := BuildPlan(db, r, listed, isNumber);
    if !ok || dryRun {
      return false;
    }
    var destructive := plan.destructive != [];
    if destructive && !confirmed {
      return false;
    }
    var outcome := db.ApplyPlan(plan, confirmed);
    if !outcome.Done? {
      NotApplied(w.tables[name], plan.Contents(), confirmed);
      return false;
    }
    published := store.PublishEntity(name, Definitions.PublishAttempt(true, false, destructive, confirmed, true));
  }

  /** A publish either changes nothing or executes its plan and marks the version. */
  lemma DeploymentCases(w: Publishing.World, name: string, listed: seq<Documents.AttrDef>, dryRun: bool,
                        confirmed: bool, isNumber: string -> bool)
    requires name in w.catalog.entities && w.dangers == map[] && w.tables.Keys == {name}
    ensures var plan, after := PlanOf(w, w.catalog.entities[name], listed, isNumber),
                               Deployment(w, name, listed, dryRun, confirmed, isNumber);
      if plan.Some? && !dryRun && (plan.value.destructive != [] ==> confirmed)
         && ApplyOutcome(w.tables[name], plan.value, confirmed).Done? then
        && name in after.dangers && after.tables.Keys == {name}
        && after.tables[name] == Migration.ApplyPlan(w.tables[name], plan.value, confirmed)
        && var attempt := Definitions.PublishAttempt(true, false, plan.value.destructive != [], confirmed, true);
        after.catalog == Definitions.Handle(w.catalog, Definitions.Publish(name, attempt))
      else after == w
  {
    hide PlanOf, Migration.ApplyPlan, ApplyOutcome, Definitions.PublishedCatalog;
  }

  /** The plan depends on the entity's own tables alone. */
  lemma SamePlan(w: Publishing.World, r: Definitions.EntityRec, listed: seq<Documents.AttrDef>,
                 isNumber: string -> bool)
    requires w.tables.Keys == {r.head.name}
    ensures var alone := Publishing.World(Definitions.NO_ENTITIES, map[r.head.name := w.tables[r.head.name]], map[]);
      PlanOf(w, r, listed, isNumber) == PlanOf(alone, r, listed, isNumber)
  {
    hide Plannable, AlterPlan, CreatePlan;
  }

  lemma NotApplied(db: Schema, plan: Plan, confirmed: bool)
    requires !ApplyOutcome(db, plan, confirmed).Done?
    ensures Migration.ApplyPlan(db, plan, confirmed) == db
  {
  }
}

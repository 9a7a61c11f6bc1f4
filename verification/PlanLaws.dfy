/**
 What the alter plan says, statement by statement and report by report (app/services/ddl.py
 `build_alter_plan` and the builders): which columns are added and how, which types are changed and
 which changes are only reported, which columns are reported as removed, which indexes are made.
 */
module PlanLaws {
  import opened Common
  import opened TypeSystem
  import opened Migration
  import opened MigrationLaws

  // ---------------------------------------------------------------- which tier says it

  predicate OfTier(p: Plan, tier: Tier) {
    && (forall s :: s in p.statements ==> s.tier == tier)
    && (forall d :: d in p.destructive ==> d.tier == tier)
    && (forall w :: w in p.warnings ==> w.AddedNullable? && w.tier == tier)
  }

  lemma {:induction false} ColumnIndexesTier(name: string, cols: seq<ColumnDef>)
    ensures forall s :: s in ColumnIndexes(name, cols) ==> s.tier == Live && s.CreateIndex?
  {
    if cols != [] {
      ColumnIndexesTier(name, cols[..|cols| - 1]);
    }
  }

  lemma {:induction false} AdditionsSay(tier: Tier, existing: seq<Column>, cols: seq<ColumnDef>)
    ensures var p := Additions(tier, existing, cols);
      && p.destructive == []
      && (forall s :: s in p.statements <==> exists c :: c in cols && s in Addition(tier, existing, c).statements)
      && (forall w :: w in p.warnings <==> exists c :: c in cols && w in Addition(tier, existing, c).warnings)
  {
    if cols != [] {
      var n := |cols| - 1;
      AdditionsSay(tier, existing, cols[..n]);
      assert cols == cols[..n] + [cols[n]];
      hide Addition;
      assert Addition(tier, existing, cols[n]).destructive == [] by {
        AdditionHarmless(tier, existing, cols[n]);
      }
    }
  }

  lemma AdditionHarmless(tier: Tier, existing: seq<Column>, c: ColumnDef)
    ensures Addition(tier, existing, c).destructive == []
  {
  }

  lemma {:induction false} RetypingsSay(tier: Tier, existing: seq<Column>, cols: seq<ColumnDef>)
    ensures var p := Retypings(tier, existing, cols);
      && p.warnings == []
      && (forall s :: s in p.statements <==> exists c :: c in cols && s in Retyping(tier, existing, c).statements)
      && (forall d :: d in p.destructive <==> exists c :: c in cols && d in Retyping(tier, existing, c).destructive)
  {
    if cols != [] {
      var n := |cols| - 1;
      RetypingsSay(tier, existing, cols[..n]);
      assert cols == cols[..n] + [cols[n]];
      assert Retyping(tier, existing, cols[n]).warnings == [];
      hide Retyping;
    }
  }

  lemma {:induction false} RemovedSay(tier: Tier, cols: seq<ColumnDef>, existing: seq<Column>)
    ensures forall d :: d in Removed(tier, cols, existing) <==>
      && d.Removal? && d.tier == tier && !SystemName(d.name) && !InModel(cols, d.name)
      && exists c :: c in existing && c.name == d.name
  {
    if existing != [] {
      var n := |existing| - 1;
      RemovedSay(tier, cols, existing[..n]);
      assert existing == existing[..n] + [existing[n]];
    }
  }

  /** A tier's part of the plan speaks of that tier only. */
  lemma TierSays(db: Schema, name: string, cols: seq<ColumnDef>, tier: Tier)
    ensures OfTier(TierPlan(db, name, cols, tier), tier)
  {
    hide Additions, Retypings, Removed, ColumnIndexes, SystemColumns;
    ColumnIndexesTier(name, cols);
    if tier in db {
      var existing := db[tier].columns;
      AdditionsSay(tier, existing, cols);
      RetypingsSay(tier, existing, cols);
      RemovedSay(tier, cols, existing);
      hide Wanted, LogicalOf, SafeWidening;
    }
  }

  /** What the plan says of a tier is what that tier's part says. */
  lemma PlanSays(db: Schema, name: string, cols: seq<ColumnDef>)
    ensures var plan := AlterPlan(db, name, cols);
      && (forall s :: s in plan.statements <==> s in TierPlan(db, name, cols, s.tier).statements)
      && (forall d :: d in plan.destructive <==> d in TierPlan(db, name, cols, d.tier).destructive)
      && (forall w :: w in plan.warnings <==> w.AddedNullable? && w in TierPlan(db, name, cols, w.tier).warnings)
  {
    hide TierPlan;
    forall tier ensures OfTier(TierPlan(db, name, cols, tier), tier) {
      TierSays(db, name, cols, tier);
    }
    assert PlanUpTo(db, name, cols, 0) == NOTHING;
    assert PlanUpTo(db, name, cols, 1) == NOTHING.Then(TierPlan(db, name, cols, Landing));
    assert PlanUpTo(db, name, cols, 2) == PlanUpTo(db, name, cols, 1).Then(TierPlan(db, name, cols, Staging));
    assert PlanUpTo(db, name, cols, 3) == PlanUpTo(db, name, cols, 2).Then(TierPlan(db, name, cols, Live));
    assert PlanUpTo(db, name, cols, 4) == PlanUpTo(db, name, cols, 3).Then(TierPlan(db, name, cols, History));
    hide PlanUpTo;
  }

  /** What is said of a deployed tier. */
  lemma DeployedSays(db: Schema, name: string, cols: seq<ColumnDef>, tier: Tier)
    requires tier in db && tier != Landing
    ensures var p, existing := TierPlan(db, name, cols, tier), db[tier].columns;
      && (forall s :: s in p.statements <==>
            || (exists c :: c in cols && s in Addition(tier, existing, c).statements)
            || (exists c :: c in cols && s in Retyping(tier, existing, c).statements)
            || (tier == Live && s in ColumnIndexes(name, cols)))
      && (forall d :: d in p.destructive <==>
            || (exists c :: c in cols && d in Retyping(tier, existing, c).destructive)
            || d in Removed(tier, cols, existing))
      && (forall w :: w in p.warnings <==> exists c :: c in cols && w in Addition(tier, existing, c).warnings)
  {
    hide Additions, Retypings, Addition, Retyping, Removed, ColumnIndexes;
    AdditionsSay(tier, db[tier].columns, cols);
    RetypingsSay(tier, db[tier].columns, cols);
  }

  lemma OneColumn(cols: seq<ColumnDef>, c: ColumnDef)
    requires ValidNames(cols) && c in cols
    ensures forall d :: d in cols && d.name == c.name ==> d == c
  {
  }

  lemma Shapes(tier: Tier, existing: seq<Column>, c: ColumnDef)
    ensures forall s :: s in Addition(tier, existing, c).statements ==> s.AddColumn? && s.column.name == c.name
    ensures forall s :: s in Retyping(tier, existing, c).statements ==> s.AlterType? && s.name == c.name
    ensures forall w :: w in Addition(tier, existing, c).warnings ==> w == AddedNullable(tier, c.name)
    ensures forall d: Danger :: d in Retyping(tier, existing, c).destructive ==> d.Narrowing? && d.name == c.name
  {
    hide LogicalOf, SafeWidening, Wanted;
  }

  /** What the plan says of one model column in a deployed tier. */
  lemma ColumnSays(db: Schema, name: string, cols: seq<ColumnDef>, tier: Tier, c: ColumnDef)
    requires ValidNames(cols) && c in cols && tier in db && tier != Landing
    ensures var plan, existing := AlterPlan(db, name, cols), db[tier].columns;
      && (forall s: Statement :: s.AlterType? && s.tier == tier && s.name == c.name ==>
            (s in plan.statements <==> s in Retyping(tier, existing, c).statements))
      && (forall s: Statement :: s.AddColumn? && s.tier == tier && s.column.name == c.name ==>
            (s in plan.statements <==> s in Addition(tier, existing, c).statements))
      && (forall d: Danger :: d.tier == tier && d.name == c.name ==>
            (d in plan.destructive <==> d in Retyping(tier, existing, c).destructive))
      && (AddedNullable(tier, c.name) in plan.warnings <==>
            AddedNullable(tier, c.name) in Addition(tier, existing, c).warnings)
  {
    hide AlterPlan, TierPlan, Removed, ColumnIndexes, Addition, Retyping, SystemName, InModel, ValidNames;
    PlanSays(db, name, cols);
    DeployedSays(db, name, cols, tier);
    OneColumn(cols, c);
    ColumnIndexesTier(name, cols);
    RemovedSay(tier, cols, db[tier].columns);
    ModelHas(cols, c);
    forall d | d in cols
      ensures forall s ::
          s in Addition(tier, db[tier].columns, d).statements ==> s.AddColumn? && s.column.name == d.name
      ensures forall s :: s in Retyping(tier, db[tier].columns, d).statements ==> s.AlterType? && s.name == d.name
      ensures forall w :: w in Addition(tier, db[tier].columns, d).warnings ==> w == AddedNullable(tier, d.name)
      ensures forall e :: e in Retyping(tier, db[tier].columns, d).destructive ==> e.Narrowing? && e.name == d.name
    {
      Shapes(tier, db[tier].columns, d);
    }
  }

  lemma ModelHas(cols: seq<ColumnDef>, c: ColumnDef)
    requires c in cols
    ensures InModel(cols, c.name)
  {
  }

  // ---------------------------------------------------------------- columns that are there

  /** The change is one the planner makes; every other one it only reports. */
  predicate Accepts(found: PgType, c: ColumnDef)
    requires LogicalOf(found).Some?
  {
    var was := LogicalOf(found).value;
    && c.dataType in MayBecome(was)
    && ({was, c.dataType} <= {StringT, EmailT, EnumT} || {was, c.dataType} <= {TextT, UrlT} ==>
          NoShorter(LengthOf(found), c.length))
  }

  /**
   A deployed column whose type differs from the model's is altered if the pair of types is an
   accepted one, and otherwise reported as destructive and named by no statement but an index's.
   */
  lemma RetypingMeans(db: Schema, name: string, cols: seq<ColumnDef>, tier: Tier, c: ColumnDef, pg: PgType)
    requires ValidNames(cols) && Plannable(db, cols) && c in cols
    requires tier != Landing && Has(db, tier, c.name) && LogicalOf(TypeOf(db, tier, c.name)).Some?
    ensures var plan, found := AlterPlan(db, name, cols), TypeOf(db, tier, c.name);
      && (AlterType(tier, c.name, pg) in plan.statements <==>
            Rendered(c) == Some(pg) && pg != found && Accepts(found, c))
      && (Narrowing(tier, c.name, found, pg) in plan.destructive <==>
            Rendered(c) == Some(pg) && pg != found && !Accepts(found, c))
      && forall s :: s in plan.statements && s.tier == tier && s.AddColumn? ==> s.column.name != c.name
  {
    var found := TypeOf(db, tier, c.name);
    assert TierRenders(db, cols, tier) && RetypingRenders(db[tier].columns, c);
    SafeWideningMeans(LogicalOf(found).value, LengthOf(found), c.dataType, c.length);
    ColumnSays(db, name, cols, tier, c);
    hide AlterPlan, LogicalOf, SafeWidening, Rendered, MayBecome, NoShorter, LengthOf, Plannable, ValidNames;
  }

  /** A column deployed with a type outside the map, or with the model's own, is neither altered nor reported. */
  lemma UntouchedMeans(db: Schema, name: string, cols: seq<ColumnDef>, tier: Tier, c: ColumnDef)
    requires ValidNames(cols) && Plannable(db, cols) && c in cols && tier != Landing && Has(db, tier, c.name)
    requires LogicalOf(TypeOf(db, tier, c.name)).None? || Rendered(c) == Some(TypeOf(db, tier, c.name))
    ensures var plan := AlterPlan(db, name, cols);
      && (forall s :: s in plan.statements && s.tier == tier && s.AlterType? ==> s.name != c.name)
      && (forall s :: s in plan.statements && s.tier == tier && s.AddColumn? ==> s.column.name != c.name)
      && (forall d :: d in plan.destructive && d.tier == tier ==> d.name != c.name)
  {
    ColumnSays(db, name, cols, tier, c);
    hide AlterPlan, LogicalOf, SafeWidening, Rendered, Plannable, ValidNames;
  }

  // ---------------------------------------------------------------- columns that are missing

  /**
   A model column that a deployed tier lacks is added, with the model's type and default; in live
   a required one is NOT NULL if it has a default, and nullable with a warning if it has none.
   */
  lemma AdditionMeans(db: Schema, name: string, cols: seq<ColumnDef>, tier: Tier, c: ColumnDef, column: Column,
                      default: Option<string>)
    requires ValidNames(cols) && Plannable(db, cols) && c in cols
    requires tier in db && tier != Landing && !Has(db, tier, c.name) && column.name == c.name
    ensures var plan, given := AlterPlan(db, name, cols), c.default.Some? && c.default.value != "";
      && (AddColumn(tier, column, default) in plan.statements <==>
            && Rendered(c) == Some(column.pg) && (column.notNull <==> tier == Live && c.required && given)
            && default == (if given then c.default else None))
      && (AddedNullable(tier, c.name) in plan.warnings <==> tier == Live && c.required && !given)
  {
    assert TierRenders(db, cols, tier) && AdditionRenders(db[tier].columns, c);
    ColumnSays(db, name, cols, tier, c);
    hide AlterPlan, Rendered, Plannable, ValidNames;
  }

  /** Only missing model columns are added, and only they are warned of. */
  lemma OnlyMissingAdded(db: Schema, name: string, cols: seq<ColumnDef>)
    ensures var plan := AlterPlan(db, name, cols);
      && (forall s :: s in plan.statements && s.AddColumn? ==>
            s.tier != Landing && s.tier in db && !Has(db, s.tier, s.column.name) && InModel(cols, s.column.name))
      && (forall w :: w in plan.warnings ==>
            w.AddedNullable? && w.tier in db && !Has(db, w.tier, w.name) && InModel(cols, w.name))
  {
    hide AlterPlan, TierPlan, Removed, ColumnIndexes, LogicalOf, SafeWidening, Wanted, InModel;
    PlanSays(db, name, cols);
    ColumnIndexesTier(name, cols);
    forall c | c in cols ensures InModel(cols, c.name) {
      ModelHas(cols, c);
    }
    forall tier | tier in db && tier != Landing {
      DeployedSays(db, name, cols, tier);
    }
    forall tier | tier !in db || tier == Landing
      ensures forall s :: s in TierPlan(db, name, cols, tier).statements ==> !s.AddColumn?
      ensures TierPlan(db, name, cols, tier).warnings == []
    {
      NotAltered(db, name, cols, tier);
    }
  }

  lemma NotAltered(db: Schema, name: string, cols: seq<ColumnDef>, tier: Tier)
    requires tier !in db || tier == Landing
    ensures forall s :: s in TierPlan(db, name, cols, tier).statements ==> !s.AddColumn? && !s.AlterType?
    ensures TierPlan(db, name, cols, tier).warnings == [] && TierPlan(db, name, cols, tier).destructive == []
  {
    hide ColumnIndexes, SystemColumns;
    ColumnIndexesTier(name, cols);
  }

  // ---------------------------------------------------------------- columns no longer in the model

  /** A removal is reported exactly for a deployed column that is neither the platform's nor the model's. */
  lemma RemovalMeans(db: Schema, name: string, cols: seq<ColumnDef>, tier: Tier, column: string)
    ensures Removal(tier, column) in AlterPlan(db, name, cols).destructive <==>
      && tier != Landing && Has(db, tier, column) && !("mdm_" <= column)
      && forall c :: c in cols ==> c.name != column
  {
    hide AlterPlan, TierPlan, Removed, ColumnIndexes, LogicalOf, SafeWidening, Wanted;
    PlanSays(db, name, cols);
    if tier !in db || tier == Landing {
      NotAltered(db, name, cols, tier);
    } else {
      DeployedSays(db, name, cols, tier);
      RemovedSay(tier, cols, db[tier].columns);
    }
  }

  // ---------------------------------------------------------------- tables and indexes

  /**
   A tier is created exactly if it is missing: with its own columns, then, but in landing, one for each
   model column, in model order, NOT NULL only in live and only if required.
   */
  lemma CreationMeans(db: Schema, name: string, cols: seq<ColumnDef>, tier: Tier, columns: seq<Column>)
    requires Plannable(db, cols)
    ensures CreateTable(tier, columns) in AlterPlan(db, name, cols).statements <==>
      var own := SystemColumns(tier);
      && tier !in db && own <= columns
      && |columns| == |own| + (if tier == Landing then 0 else |cols|)
      && forall i :: 0 <= i < |cols| && tier != Landing ==>
           && columns[|own| + i].name == cols[i].name && Rendered(cols[i]) == Some(columns[|own| + i].pg)
           && (columns[|own| + i].notNull <==> tier == Live && cols[i].required)
  {
    assert TierRenders(db, cols, tier);
    hide AlterPlan, TierPlan, SystemColumns, Rendered, BusinessColumns, Plannable, TierRenders;
    PlanSays(db, name, cols);
    if tier in db {
      NothingCreated(db, name, cols, tier);
    } else {
      CreatedOnce(db, name, cols, tier, columns);
      BusinessColumnsMean(db, cols, tier, columns);
    }
  }

  lemma NothingCreated(db: Schema, name: string, cols: seq<ColumnDef>, tier: Tier)
    requires tier in db
    ensures forall s :: s in TierPlan(db, name, cols, tier).statements ==> !s.CreateTable?
  {
    if tier != Landing {
      hide TierPlan, Addition, Retyping;
      DeployedSays(db, name, cols, tier);
      ColumnIndexesTier(name, cols);
      forall c | c in cols
        ensures forall s :: s in Addition(tier, db[tier].columns, c).statements ==> s.AddColumn?
        ensures forall s :: s in Retyping(tier, db[tier].columns, c).statements ==> s.AlterType?
      {
        Shapes(tier, db[tier].columns, c);
      }
    }
  }

  lemma CreatedOnce(db: Schema, name: string, cols: seq<ColumnDef>, tier: Tier, columns: seq<Column>)
    requires tier !in db
    ensures CreateTable(tier, columns) in TierPlan(db, name, cols, tier).statements
       <==> columns == SystemColumns(tier) + BusinessColumns(tier, cols)
  {
    ColumnIndexesTier(name, cols);
    hide ColumnIndexes, SystemColumns, BusinessColumns;
  }

  lemma BusinessColumnsMean(db: Schema, cols: seq<ColumnDef>, tier: Tier, columns: seq<Column>)
    requires tier !in db && TierRenders(db, cols, tier)
    ensures columns == SystemColumns(tier) + BusinessColumns(tier, cols) <==>
      var own := SystemColumns(tier);
      && own <= columns
      && |columns| == |own| + (if tier == Landing then 0 else |cols|)
      && forall i :: 0 <= i < |cols| && tier != Landing ==>
           && columns[|own| + i].name == cols[i].name && Rendered(cols[i]) == Some(columns[|own| + i].pg)
           && (columns[|own| + i].notNull <==> tier == Live && cols[i].required)
  {
    hide SystemColumns, Rendered;
    var own := SystemColumns(tier);
    if own <= columns {
      var more := columns[|own|..];
      assert columns == own + more;
      assert forall i :: 0 <= i < |more| ==> more[i] == columns[|own| + i];
      forall i | 0 <= i < |cols| && tier != Landing ensures Rendered(cols[i]).Some? {
        assert cols[i] in cols;
      }
      assert columns == own + BusinessColumns(tier, cols) <==> more == BusinessColumns(tier, cols);
    }
  }

  /** A unique model column has a unique index in live, an indexed one a plain index, and no other column any. */
  lemma IndexMeans(db: Schema, name: string, cols: seq<ColumnDef>, c: ColumnDef, index: string)
    requires ValidNames(cols) && c in cols
    ensures CreateIndex(Live, index, [c.name]) in AlterPlan(db, name, cols).statements <==>
      if c.unique then index == "uq_" + name + "_" + c.name
      else c.indexed && index == "ix_" + name + "_" + c.name
  {
    hide AlterPlan, ColumnIndexes, SystemColumns, Wanted, LogicalOf, SafeWidening;
    PlanSays(db, name, cols);
    ColumnIndexesMean(name, cols, c, index);
    if Live in db {
      hide TierPlan;
      DeployedSays(db, name, cols, Live);
    }
  }

  lemma {:induction false} ColumnIndexesSay(name: string, cols: seq<ColumnDef>)
    ensures forall s :: s in ColumnIndexes(name, cols) <==> exists c :: c in cols && s in ColumnIndex(name, c)
  {
    if cols != [] {
      var n := |cols| - 1;
      ColumnIndexesSay(name, cols[..n]);
      assert cols == cols[..n] + [cols[n]];
      hide ColumnIndex;
    }
  }

  lemma ColumnIndexesMean(name: string, cols: seq<ColumnDef>, c: ColumnDef, index: string)
    requires ValidNames(cols) && c in cols
    ensures CreateIndex(Live, index, [c.name]) in ColumnIndexes(name, cols) <==>
      if c.unique then index == "uq_" + name + "_" + c.name
      else c.indexed && index == "ix_" + name + "_" + c.name
  {
    ColumnIndexesSay(name, cols);
    OneColumn(cols, c);
    hide ColumnIndexes;
  }
}

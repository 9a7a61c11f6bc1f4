/**
 Definitions and deployed tables together (app/api/v1/models_api.py `publish_entity`): a run of
 create, update, import and publish requests, each publish planning against the tables that the
 earlier ones left. What a published version says about its tables, and when it is true.
 */
module Publishing {
  import opened Common
  import opened Strings
  import opened TypeSystem
  import opened Identifiers
  import opened Migration
  import opened MigrationLaws
  import Documents
  import Definitions

  // ---------------------------------------------------------------- from attributes to columns

  function TypeNamed(name: string): Option<LogicalType> {
    match name
    case "string" => Some(StringT)
    case "text" => Some(TextT)
    case "integer" => Some(IntegerT)
    case "bigint" => Some(BigintT)
    case "decimal" => Some(DecimalT)
    case "float" => Some(FloatT)
    case "boolean" => Some(BooleanT)
    case "date" => Some(DateT)
    case "timestamp" => Some(TimestampT)
    case "uuid" => Some(UuidT)
    case "json" => Some(JsonT)
    case "email" => Some(EmailT)
    case "url" => Some(UrlT)
    case "enum" => Some(EnumT)
    case _ => None
  }

  /** A default is stored as text. */
  function DefaultText(j: Documents.Json): Option<string> {
    if j.JNull? then None else Some(Documents.TextOf(j))
  }

  /** One column of `columns_from_entity`; None where a name or type is refused. */
  function ColumnOf(a: Documents.AttrDef, isNumber: string -> bool): Option<ColumnDef> {
    var name, dataType, default := ValidColumn(a.name), TypeNamed(a.dataType), DefaultText(a.default);
    if name.None? || dataType.None? then None
    else
      Some(ColumnDef(name.value, dataType.value, a.length, a.precision, a.scale, a.required, a.unique, default,
                     default.Some? && isNumber(default.value), a.indexed || a.matchKey || a.businessKey))
  }

  predicate Projects(attrs: seq<Documents.AttrDef>, isNumber: string -> bool) {
    forall a :: a in attrs ==> ColumnOf(a, isNumber).Some?
  }

  function ColumnsOf(attrs: seq<Documents.AttrDef>, isNumber: string -> bool): (cols: seq<ColumnDef>)
    requires Projects(attrs, isNumber)
  {
    seq(|attrs|, i requires 0 <= i < |attrs| => ColumnOf(attrs[i], isNumber).value)
  }

  /** Attributes as stored: each under its own snake-case name. */
  ghost predicate WellNamed(attributes: map<string, Documents.AttrDef>) {
    forall n :: n in attributes ==> attributes[n].name == n && SnakeCase(n)
  }

  /** The stored attributes in some order. */
  ghost predicate Listing(attributes: map<string, Documents.AttrDef>, listed: seq<Documents.AttrDef>) {
    && (forall a :: a in listed ==> a.name in attributes && attributes[a.name] == a)
    && (forall n :: n in attributes ==> attributes[n] in listed)
    && Definitions.NoRepeats(listed)
  }

  /** The tables have exactly the columns of the attributes, in whatever order those are listed. */
  ghost predicate Matches(db: Schema, attributes: map<string, Documents.AttrDef>, isNumber: string -> bool) {
    forall listed :: Listing(attributes, listed) ==>
        Projects(listed, isNumber) && Converged(db, ColumnsOf(listed, isNumber))
  }

  lemma ColumnName(a: Documents.AttrDef, isNumber: string -> bool)
    requires SnakeCase(a.name) && ColumnOf(a, isNumber).Some?
    ensures ColumnOf(a, isNumber).value.name == a.name && !SystemName(a.name)
  {
    hide TypeNamed, RESERVED;
    assert Recase(Lower, a.name) == a.name;
  }

  lemma ListedNames(attributes: map<string, Documents.AttrDef>, listed: seq<Documents.AttrDef>,
                    isNumber: string -> bool)
    requires WellNamed(attributes) && Listing(attributes, listed) && Projects(listed, isNumber)
    ensures ValidNames(ColumnsOf(listed, isNumber))
    ensures forall i :: 0 <= i < |listed| ==> ColumnsOf(listed, isNumber)[i].name == listed[i].name
  {
    hide ColumnOf, SnakeCase, SystemName;
    var cols := ColumnsOf(listed, isNumber);
    forall i | 0 <= i < |listed| ensures cols[i].name == listed[i].name && !SystemName(cols[i].name) {
      assert listed[i] in listed;
      ColumnName(listed[i], isNumber);
    }
  }

  /** Two listings of the same attributes make the same columns. */
  lemma SameColumnsListed(attributes: map<string, Documents.AttrDef>, a: seq<Documents.AttrDef>,
                          b: seq<Documents.AttrDef>, isNumber: string -> bool)
    requires Listing(attributes, a) && Listing(attributes, b) && Projects(a, isNumber)
    ensures Projects(b, isNumber)
    ensures forall c :: c in ColumnsOf(a, isNumber) <==> c in ColumnsOf(b, isNumber)
  {
    hide ColumnOf, Definitions.NoRepeats;
    assert forall x :: x in a <==> x in b;
    forall c ensures c in ColumnsOf(a, isNumber) <==> c in ColumnsOf(b, isNumber) {
      if c in ColumnsOf(a, isNumber) {
        var i :| 0 <= i < |a| && ColumnsOf(a, isNumber)[i] == c;
        assert a[i] in b;
        var j :| 0 <= j < |b| && b[j] == a[i];
        assert ColumnsOf(b, isNumber)[j] == c;
      }
      if c in ColumnsOf(b, isNumber) {
        var i :| 0 <= i < |b| && ColumnsOf(b, isNumber)[i] == c;
        assert b[i] in a;
        var j :| 0 <= j < |a| && a[j] == b[i];
        assert ColumnsOf(a, isNumber)[j] == c;
      }
    }
  }

  lemma SameNames(a: seq<ColumnDef>, b: seq<ColumnDef>, name: string)
    requires forall c :: c in a ==> c in b
    ensures InModel(a, name) ==> InModel(b, name)
  {
    if InModel(a, name) {
      var i :| 0 <= i < |a| && a[i].name == name;
      assert a[i] in b;
    }
  }

  lemma ConvergedAlike(db: Schema, a: seq<ColumnDef>, b: seq<ColumnDef>)
    requires forall c :: c in a <==> c in b
    ensures Converged(db, a) <==> Converged(db, b)
  {
    hide SystemName, Wanted, Find, InModel;
    forall name ensures InModel(a, name) <==> InModel(b, name) {
      SameNames(a, b, name);
      SameNames(b, a, name);
    }
    forall tier ensures TierConverged(db, a, tier) <==> TierConverged(db, b, tier) {
      if tier in db {
        assert NothingExtra(db[tier].columns, a) <==> NothingExtra(db[tier].columns, b);
      }
    }
  }

  lemma MatchesAny(db: Schema, attributes: map<string, Documents.AttrDef>, listed: seq<Documents.AttrDef>,
                   isNumber: string -> bool)
    requires Listing(attributes, listed) && Projects(listed, isNumber)
    ensures Matches(db, attributes, isNumber) <==> Converged(db, ColumnsOf(listed, isNumber))
  {
    hide Converged, Listing, Projects, ColumnsOf;
    if Converged(db, ColumnsOf(listed, isNumber)) {
      forall other | Listing(attributes, other)
        ensures Projects(other, isNumber) && Converged(db, ColumnsOf(other, isNumber))
      {
        SameColumnsListed(attributes, listed, other, isNumber);
        ConvergedAlike(db, ColumnsOf(listed, isNumber), ColumnsOf(other, isNumber));
      }
    }
  }

  // ---------------------------------------------------------------- the world

  /**
   Definitions, tables by entity, and for each entity the destructive changes that the audit event
   of its last publish lists.
   */
  datatype World = World(catalog: Definitions.Catalog, tables: map<string, Schema>, dangers: map<string, seq<Danger>>)

  /** A definition request, or a publish with the attributes as they are delivered and the request's two flags. */
  datatype Event =
    | Define(q: Definitions.Request)
    | Deploy(name: string, listed: seq<Documents.AttrDef>, dryRun: bool, confirmed: bool)

  /** Requests that define; publishing is the other kind of event, and deletions are left out. */
  predicate Defines(q: Definitions.Request) {
    q.Create? || q.Update? || q.Import?
  }

  function TablesOf(w: World, name: string): Schema {
    if name in w.tables then w.tables[name] else map[]
  }

  predicate IsDeployed(r: Definitions.EntityRec) {
    r.status == Definitions.Published || r.status == Definitions.Modified
  }

  predicate HasMatchKey(attrs: seq<Documents.AttrDef>) {
    exists i :: 0 <= i < |attrs| && attrs[i].matchKey
  }

  /**
   The create plan for an entity that was never published, the alter plan for any other; None where
   planning raises.
   */
  function PlanOf(w: World, r: Definitions.EntityRec, listed: seq<Documents.AttrDef>,
                  isNumber: string -> bool): Option<Plan> {
    var name := r.head.name;
    if ValidIdent(name) != Some(name) || !Projects(listed, isNumber) then None
    else
      var cols := ColumnsOf(listed, isNumber);
      if IsDeployed(r) then
        if Plannable(TablesOf(w, name), cols) then Some(AlterPlan(TablesOf(w, name), name, cols)) else None
      else
        if !Plannable(map[], cols) then None
        else Some(CreatePlan(name, cols, HasMatchKey(listed), Documents.HasBusinessKey(listed)))
  }

  /** How far the publish gets. */
  function AttemptOf(w: World, name: string, plan: Option<Plan>, dryRun: bool,
                     confirmed: bool): Definitions.PublishAttempt {
    Definitions.PublishAttempt(
      plan.Some?, dryRun, plan.Some? && plan.value.destructive != [], confirmed,
      plan.Some? && ApplyOutcome(TablesOf(w, name), plan.value, confirmed).Done?)
  }

  function Deployment(w: World, name: string, listed: seq<Documents.AttrDef>, dryRun: bool, confirmed: bool,
                      isNumber: string -> bool): World
    requires name in w.catalog.entities
  {
    var plan := PlanOf(w, w.catalog.entities[name], listed, isNumber);
    var attempt := AttemptOf(w, name, plan, dryRun, confirmed);
    var catalog := Definitions.Handle(w.catalog, Definitions.Publish(name, attempt));
    if !Definitions.GoesThrough(attempt) then w.(catalog := catalog)
    else
      World(catalog, w.tables[name := ApplyPlan(TablesOf(w, name), plan.value, confirmed)],
            w.dangers[name := plan.value.destructive])
  }

  /** A publish of an unknown entity is refused; the attributes delivered are always the stored ones. */
  ghost function Step(w: World, ev: Event, isNumber: string -> bool): World {
    match ev
    case Define(q) => if Defines(q) then w.(catalog := Definitions.Handle(w.catalog, q)) else w
    case Deploy(name, listed, dryRun, confirmed) =>
      if name !in w.catalog.entities || !Listing(w.catalog.entities[name].attributes, listed) then w
      else Deployment(w, name, listed, dryRun, confirmed, isNumber)
  }

  ghost function After(events: seq<Event>, isNumber: string -> bool): World {
    if events == [] then World(Definitions.NO_ENTITIES, map[], map[])
    else Step(After(events[..|events| - 1], isNumber), events[|events| - 1], isNumber)
  }

  // ---------------------------------------------------------------- what every run keeps

  /** All columns have types the builders create. */
  ghost predicate AllMapped(db: Schema) {
    forall tier, i :: tier in db && 0 <= i < |db[tier].columns| ==> !db[tier].columns[i].pg.Unmapped?
  }

  ghost predicate Stored(c: Definitions.Catalog) {
    forall name :: name in c.entities ==> WellNamed(c.entities[name].attributes) && c.entities[name].head.name == name
  }

  /** A published entity's tables match its attributes exactly when its last publish reported nothing destructive. */
  ghost predicate InStep(w: World, name: string, isNumber: string -> bool)
    requires name in w.catalog.entities
  {
    var r := w.catalog.entities[name];
    && (IsDeployed(r) <==> name in w.tables)
    && (name in w.tables ==> AllMapped(w.tables[name]))
    && (r.status == Definitions.Published ==>
          && name in w.dangers && name in w.tables
          && (Matches(w.tables[name], r.attributes, isNumber) <==> w.dangers[name] == []))
  }

  ghost predicate Synchronized(w: World, isNumber: string -> bool) {
    && Definitions.Ledger(w.catalog) && Stored(w.catalog) && w.tables.Keys <= w.catalog.entities.Keys
    && forall name :: name in w.catalog.entities ==> InStep(w, name, isNumber)
  }

  // ---------------------------------------------------------------- defining

  lemma {:induction false} MergedNames(current: map<string, Documents.AttrDef>, attrs: seq<Documents.AttrDef>, n: nat)
    requires n <= |attrs|
    ensures forall k :: k in Definitions.Merged(current, attrs, n) ==>
        Definitions.Merged(current, attrs, n)[k].name == k
  {
    if n > 0 {
      MergedNames(current, attrs, n - 1);
    }
  }

  lemma {:induction false} ByNameNames(attrs: seq<Documents.AttrDef>)
    ensures forall k :: k in Definitions.ByName(attrs) ==> Definitions.ByName(attrs)[k].name == k
  {
    if attrs != [] {
      ByNameNames(attrs[..|attrs| - 1]);
    }
  }

  /** Storing the next version of one entity. */
  lemma StoreInStep(w: World, r: Definitions.EntityRec, isNumber: string -> bool)
    requires Synchronized(w, isNumber) && Definitions.NextVersion(w.catalog, r) && WellNamed(r.attributes)
    ensures Synchronized(w.(catalog := Definitions.Store(w.catalog, r)), isNumber)
  {
    hide Definitions.Ledger, Matches, AllMapped, WellNamed;
    Definitions.StoreLedger(w.catalog, r);
    var w' := w.(catalog := Definitions.Store(w.catalog, r));
    forall name | name in w'.catalog.entities ensures InStep(w', name, isNumber) {
      if name != r.head.name {
        assert InStep(w, name, isNumber);
      } else if name in w.catalog.entities {
        assert InStep(w, name, isNumber);
      }
    }
  }

  lemma {:induction false} ImportInStep(w: World, defs: seq<Documents.Definition>, replace: bool,
                                        isNumber: string -> bool)
    requires Synchronized(w, isNumber) && Definitions.ImportStorable(defs)
    ensures Synchronized(w.(catalog := Definitions.ImportAll(w.catalog, defs, replace)), isNumber)
  {
    hide Synchronized, InStep, Definitions.Store;
    if defs == [] {
      assert w.(catalog := w.catalog) == w;
    } else {
      var n := |defs| - 1;
      ImportInStep(w, defs[..n], replace, isNumber);
      var before := w.(catalog := Definitions.ImportAll(w.catalog, defs[..n], replace));
      ImportedStored(before, defs[n], replace, isNumber);
      StoreInStep(before, Definitions.Imported(before.catalog, defs[n], replace), isNumber);
    }
  }

  lemma ImportedStored(w: World, d: Documents.Definition, replace: bool, isNumber: string -> bool)
    requires Synchronized(w, isNumber) && Definitions.Storable(d.head.name, Definitions.ByName(d.attributes))
    ensures Definitions.NextVersion(w.catalog, Definitions.Imported(w.catalog, d, replace))
    ensures WellNamed(Definitions.Imported(w.catalog, d, replace).attributes)
  {
    hide Definitions.Ledger, InStep, SnakeCase;
    ByNameNames(d.attributes);
  }

  lemma DefineInStep(w: World, q: Definitions.Request, isNumber: string -> bool)
    requires Synchronized(w, isNumber) && Defines(q)
    ensures Synchronized(w.(catalog := Definitions.Handle(w.catalog, q)), isNumber)
  {
    hide Definitions.Ledger, InStep, SnakeCase, Definitions.Store, Definitions.Ordered;
    match q {
      case Create(head, attrs) =>
        var r := Definitions.Created(w.catalog, head, attrs);
        MergedNames(map[], attrs, |attrs|);
        if r.Some? {
          StoreInStep(w, r.value, isNumber);
        }
      case Update(name, head, attrs) =>
        if name in w.catalog.entities {
          var current, incoming := w.catalog.entities[name], Definitions.Ordered(attrs);
          MergedNames(current.attributes, incoming, |incoming|);
          var r := Definitions.Updated(current, head, attrs);
          if r.Some? {
            StoreInStep(w, r.value, isNumber);
          }
        }
      case Import(defs, replace) =>
        if Definitions.ImportStorable(defs) {
          ImportInStep(w, defs, replace, isNumber);
        }
      case _ =>
    }
  }

  // ---------------------------------------------------------------- publishing

  lemma {:induction false} MissingMapped(tier: Tier, existing: seq<Column>, cols: seq<ColumnDef>)
    ensures Mapped(Missing(tier, existing, cols))
  {
    if cols != [] {
      MissingMapped(tier, existing, cols[..|cols| - 1]);
    }
  }

  lemma {:induction false} NewTypeMapped(existing: seq<Column>, cols: seq<ColumnDef>, name: string, pg: PgType)
    requires !pg.Unmapped?
    ensures !NewType(existing, cols, name, pg).Unmapped?
  {
    if cols != [] {
      NewTypeMapped(existing, cols[..|cols| - 1], name, pg);
    }
  }

  ghost predicate Mapped(columns: seq<Column>) {
    forall i :: 0 <= i < |columns| ==> !columns[i].pg.Unmapped?
  }

  lemma SystemMapped(tier: Tier)
    ensures Mapped(SystemColumns(tier))
  {
    match tier {
      case Landing => LandingMapped();
      case Staging => StagingMapped();
      case Live => LiveMapped();
      case History => HistoryMapped();
    }
  }

  lemma LandingMapped()
    ensures Mapped(SystemColumns(Landing))
  {
    hide Mdm;
  }

  lemma StagingMapped()
    ensures Mapped(SystemColumns(Staging))
  {
    hide Mdm;
  }

  lemma LiveMapped()
    ensures Mapped(SystemColumns(Live))
  {
    hide Mdm;
  }

  lemma HistoryMapped()
    ensures Mapped(SystemColumns(History))
  {
    hide Mdm;
  }

  lemma TargetMapped(db: Schema, cols: seq<ColumnDef>, tier: Tier)
    requires AllMapped(db)
    ensures Mapped(Target(db, cols, tier))
  {
    hide SystemColumns, Wanted, Missing, NewType;
    if tier !in db {
      SystemMapped(tier);
      BusinessMapped(tier, cols);
    } else if tier != Landing {
      var existing := db[tier].columns;
      var all := existing + Missing(tier, existing, cols);
      MissingMapped(tier, existing, cols);
      forall i | 0 <= i < |all| ensures !Retyped(existing, cols, all)[i].pg.Unmapped? {
        NewTypeMapped(existing, cols, all[i].name, all[i].pg);
      }
    }
  }

  lemma BusinessMapped(tier: Tier, cols: seq<ColumnDef>)
    ensures Mapped(BusinessColumns(tier, cols))
  {
  }

  /** With only builder-made types around, a plan that is built has rendered every column. */
  lemma PlannedRenders(db: Schema, cols: seq<ColumnDef>)
    requires AllMapped(db) && Plannable(db, cols) && ValidNames(cols)
    ensures ValidModel(cols)
  {
    hide PgTypeOf, SystemName, Rendered, DefaultRenders;
    assert TierRenders(db, cols, Staging);
    forall c | c in cols ensures Rendered(c).Some? {
      if Staging in db && Find(db[Staging].columns, c.name).Some? {
        FoundMapped(db, Staging, c.name);
      }
    }
  }

  lemma FoundMapped(db: Schema, tier: Tier, name: string)
    requires AllMapped(db) && tier in db && Find(db[tier].columns, name).Some?
    ensures !Find(db[tier].columns, name).value.pg.Unmapped? && LogicalOf(Find(db[tier].columns, name).value.pg).Some?
  {
    var found := Find(db[tier].columns, name).value;
    var i :| 0 <= i < |db[tier].columns| && db[tier].columns[i] == found;
  }

  /** Executing a plan with the statements and dangers of the alter plan. */
  lemma ExecutedPlan(db: Schema, name: string, cols: seq<ColumnDef>, plan: Plan)
    requires AllMapped(db) && Plannable(db, cols) && ValidNames(cols)
    requires plan.statements == AlterPlan(db, name, cols).statements
    requires plan.destructive == AlterPlan(db, name, cols).destructive
    ensures ExecuteAll(db, plan.statements).Some? && AllMapped(ExecuteAll(db, plan.statements).value)
    ensures Converged(ExecuteAll(db, plan.statements).value, cols) <==> plan.destructive == []
  {
    hide AlterPlan, ExecuteAll, Target, Converged, Plannable, Find, ValidNames;
    PlannedRenders(db, cols);
    PlanExecutes(db, name, cols);
    Convergence(db, name, cols);
    var after := ExecuteAll(db, plan.statements).value;
    forall tier ensures BuilderTypes(db, cols, tier) {
      BuilderMade(db, cols, tier);
    }
    forall tier, i | tier in after && 0 <= i < |after[tier].columns| ensures !after[tier].columns[i].pg.Unmapped? {
      TargetMapped(db, cols, tier);
    }
  }

  lemma BuilderMade(db: Schema, cols: seq<ColumnDef>, tier: Tier)
    requires AllMapped(db)
    ensures BuilderTypes(db, cols, tier)
  {
    hide Find;
    forall c | c in cols && tier in db && Find(db[tier].columns, c.name).Some?
      ensures !Find(db[tier].columns, c.name).value.pg.Unmapped?
    {
      FoundMapped(db, tier, c.name);
    }
  }

  /** The create plan has the statements and dangers of the alter plan from nothing. */
  lemma CreatedPlan(name: string, cols: seq<ColumnDef>, matchKey: bool, businessKey: bool)
    requires ValidModel(cols)
    ensures CreatePlan(name, cols, matchKey, businessKey).statements == AlterPlan(map[], name, cols).statements
    ensures CreatePlan(name, cols, matchKey, businessKey).destructive == AlterPlan(map[], name, cols).destructive
  {
    hide AlterPlan, CreatePlan, Converged, ExecuteAll, ValidModel;
    CreateIsMigrationFromNothing(name, cols, matchKey, businessKey);
  }

  lemma DeployedTables(w: World, name: string, listed: seq<Documents.AttrDef>, isNumber: string -> bool)
    requires Synchronized(w, isNumber) && name in w.catalog.entities
    requires Listing(w.catalog.entities[name].attributes, listed)
    requires PlanOf(w, w.catalog.entities[name], listed, isNumber).Some?
    ensures var db, plan := TablesOf(w, name), PlanOf(w, w.catalog.entities[name], listed, isNumber).value;
      && ExecuteAll(db, plan.statements).Some? && AllMapped(ExecuteAll(db, plan.statements).value)
      && (Matches(ExecuteAll(db, plan.statements).value, w.catalog.entities[name].attributes, isNumber) <==>
          plan.destructive == [])
  {
    hide ExecuteAll, AlterPlan, CreatePlan, Plannable, ColumnsOf, Projects, Listing, Matches, Converged, ValidNames,
      ValidModel, AllMapped, Definitions.Ledger, WellNamed;
    var r, db := w.catalog.entities[name], TablesOf(w, name);
    var plan, cols := PlanOf(w, r, listed, isNumber).value, ColumnsOf(listed, isNumber);
    assert InStep(w, name, isNumber);
    NothingMapped();
    ListedNames(r.attributes, listed, isNumber);
    if !IsDeployed(r) {
      PlannedRenders(db, cols);
      CreatedPlan(name, cols, HasMatchKey(listed), Documents.HasBusinessKey(listed));
    }
    ExecutedPlan(db, name, cols, plan);
    MatchesAny(ExecuteAll(db, plan.statements).value, r.attributes, listed, isNumber);
  }

  lemma NothingMapped()
    ensures AllMapped(map[])
  {
  }

  lemma DeployInStep(w: World, name: string, listed: seq<Documents.AttrDef>, dryRun: bool, confirmed: bool,
                     isNumber: string -> bool)
    requires Synchronized(w, isNumber) && name in w.catalog.entities
    requires Listing(w.catalog.entities[name].attributes, listed)
    ensures Synchronized(Deployment(w, name, listed, dryRun, confirmed, isNumber), isNumber)
  {
    hide PlanOf, ExecuteAll, Listing, Matches, AllMapped, Definitions.Ledger, WellNamed, Definitions.HasSnapshot,
      Definitions.MarkDeployed;
    var r, plan := w.catalog.entities[name], PlanOf(w, w.catalog.entities[name], listed, isNumber);
    var attempt := AttemptOf(w, name, plan, dryRun, confirmed);
    var w' := Deployment(w, name, listed, dryRun, confirmed, isNumber);
    Definitions.HandleLedger(w.catalog, Definitions.Publish(name, attempt));
    if Definitions.GoesThrough(attempt) {
      DeployedTables(w, name, listed, isNumber);
    }
    forall other | other in w'.catalog.entities ensures InStep(w', other, isNumber) {
      assert InStep(w, other, isNumber);
    }
  }

  /**
   In every world that requests and publishes lead to, every published entity's tables match its
   attributes exactly when its last publish reported nothing destructive.
   */
  lemma {:induction false} AlwaysSynchronized(events: seq<Event>, isNumber: string -> bool)
    ensures Synchronized(After(events, isNumber), isNumber)
  {
    if events == [] {
      assert Definitions.Ledger(Definitions.NO_ENTITIES);
    } else {
      hide Synchronized, Deployment, Definitions.Handle, Listing;
      var w := After(events[..|events| - 1], isNumber);
      AlwaysSynchronized(events[..|events| - 1], isNumber);
      match events[|events| - 1] {
        case Define(q) =>
          if Defines(q) {
            DefineInStep(w, q, isNumber);
          }
        case Deploy(name, listed, dryRun, confirmed) =>
          if name in w.catalog.entities && Listing(w.catalog.entities[name].attributes, listed) {
            DeployInStep(w, name, listed, dryRun, confirmed, isNumber);
          }
      }
    }
  }

  /**
   What "published at version v" says about the tables. Over any run, an entity published at version v
   has a snapshot of v, and its staging, live and history tables have exactly that snapshot's columns,
   with their types, if and only if its last publish was not destructive.
   */
  lemma PublishedMeans(events: seq<Event>, name: string, isNumber: string -> bool)
    requires var c := After(events, isNumber).catalog;
      name in c.entities && c.entities[name].status == Definitions.Published
    ensures var w := After(events, isNumber);
      var v := w.catalog.entities[name].version;
      && w.catalog.entities[name].publishedVersion == Some(v) && name in w.tables && name in w.dangers
      && exists i :: 0 <= i < |w.catalog.snapshots| && Definitions.IsSnapshot(w.catalog.snapshots[i], name, v)
           && (Matches(w.tables[name], w.catalog.snapshots[i].attributes, isNumber) <==> w.dangers[name] == [])
  {
    hide After, Matches, AllMapped, WellNamed;
    AlwaysSynchronized(events, isNumber);
    var w := After(events, isNumber);
    var r := w.catalog.entities[name];
    assert InStep(w, name, isNumber);
    assert Definitions.HasSnapshot(w.catalog.snapshots, name, r.version);
    var i :| 0 <= i < |w.catalog.snapshots| && Definitions.IsSnapshot(w.catalog.snapshots[i], name, r.version);
    assert w.catalog.snapshots[i].attributes == r.attributes;
  }
}

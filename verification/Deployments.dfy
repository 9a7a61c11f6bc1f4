/**
 What one publish leaves (app/api/v1/models_api.py `publish_entity`, app/services/ddl.py
 `columns_from_entity`): which column each attribute becomes, when a publish goes through, and
 what it changes, told field by field.
 */
module Deployments {
  import opened Common
  import opened Strings
  import opened TypeSystem
  import opened Identifiers
  import opened Migration
  import opened MigrationLaws
  import opened Publishing
  import Documents
  import Definitions
  import Revisions

  // ---------------------------------------------------------------- columns

  /** The name a type is written with. */
  function Written(t: LogicalType): string {
    match t
    case StringT => "string"
    case TextT => "text"
    case IntegerT => "integer"
    case BigintT => "bigint"
    case DecimalT => "decimal"
    case FloatT => "float"
    case BooleanT => "boolean"
    case DateT => "date"
    case TimestampT => "timestamp"
    case UuidT => "uuid"
    case JsonT => "json"
    case EmailT => "email"
    case UrlT => "url"
    case EnumT => "enum"
  }

  /** Every type is found under its own name, which documents may use, and no other name has one. */
  lemma TypeNamedMeans(name: string, t: LogicalType)
    ensures TypeNamed(name) == Some(t) <==> name == Written(t)
    ensures Written(t) in Documents.TYPES
    ensures name in Documents.TYPES ==> TypeNamed(name).Some?
  {
  }

  /**
   An attribute becomes a column of its name, type, size and constraints; it is indexed when it asks to
   be or belongs to a key. Only a bad name or an unknown type is refused.
   */
  lemma ColumnMeans(a: Documents.AttrDef, isNumber: string -> bool)
    ensures var column := ColumnOf(a, isNumber);
      && (column.None? <==> ValidColumn(a.name).None? || a.dataType !in Documents.TYPES)
      && (column.Some? ==>
            var c := column.value;
            && c.name == Recase(Lower, a.name) && Written(c.dataType) == a.dataType
            && c.length == a.length && c.precision == a.precision && c.scale == a.scale
            && c.required == a.required && c.unique == a.unique
            && (c.indexed <==> a.indexed || a.matchKey || a.businessKey)
            && (c.default.None? <==> a.default == Documents.JNull)
            && (a.default.JText? ==> c.default == Some(a.default.s))
            && (c.numericDefault <==> c.default.Some? && isNumber(c.default.value)))
  {
    hide SnakeCase, IdentPattern, RESERVED, Documents.IntOrNone;
    TypeNamedMeans(a.dataType, if TypeNamed(a.dataType).Some? then TypeNamed(a.dataType).value else TextT);
    hide TypeNamed, Documents.TYPES, Written;
  }

  // ---------------------------------------------------------------- a publish

  /** The plan is built from the deployed tables once the entity has been published, and from nothing before. */
  lemma PlanMeans(w: World, r: Definitions.EntityRec, listed: seq<Documents.AttrDef>, isNumber: string -> bool)
    ensures var plan, name, tables := PlanOf(w, r, listed, isNumber), r.head.name, TablesOf(w, r.head.name);
      var first := r.status !in {Definitions.Published, Definitions.Modified};
      && (plan.Some? <==>
            && ValidIdent(name) == Some(name)
            && (forall a :: a in listed ==> ColumnOf(a, isNumber).Some?)
            && Plannable(if first then map[] else tables, ColumnsOf(listed, isNumber)))
      && (plan.Some? && !first ==> plan.value == AlterPlan(tables, name, ColumnsOf(listed, isNumber)))
      && (plan.Some? && first && ValidModel(ColumnsOf(listed, isNumber)) ==>
            && plan.value.statements == AlterPlan(map[], name, ColumnsOf(listed, isNumber)).statements
            && plan.value.destructive == []
            && (NoMatchKeyDefined in plan.value.warnings <==> forall a :: a in listed ==> !a.matchKey)
            && (NoBusinessKeyDefined in plan.value.warnings <==> forall a :: a in listed ==> !a.businessKey))
  {
    hide Plannable, AlterPlan, ColumnOf, ValidIdent, ValidModel, Creation, ExecuteAll, Converged;
    if Projects(listed, isNumber) && ValidModel(ColumnsOf(listed, isNumber)) {
      var cols := ColumnsOf(listed, isNumber);
      CreateIsMigrationFromNothing(r.head.name, cols, HasMatchKey(listed), Documents.HasBusinessKey(listed));
    }
  }

  /** A publish goes through when its plan is built, confirmed if destructive, no dry run, and executes. */
  predicate GoesAhead(w: World, name: string, plan: Option<Plan>, dryRun: bool, confirmed: bool) {
    && plan.Some? && !dryRun && (plan.value.destructive == [] || confirmed)
    && ExecuteAll(TablesOf(w, name), plan.value.statements).Some?
  }

  /**
   A publish that does not go through changes nothing at all. One that does leaves the entity's tables
   as its statements leave them, its definition marked published, and nothing else changed.
   */
  lemma DeploymentMeans(w: World, name: string, listed: seq<Documents.AttrDef>, dryRun: bool, confirmed: bool,
                        isNumber: string -> bool)
    requires name in w.catalog.entities && Definitions.Ledger(w.catalog)
    ensures var plan := PlanOf(w, w.catalog.entities[name], listed, isNumber);
      var after := Deployment(w, name, listed, dryRun, confirmed, isNumber);
      && (!GoesAhead(w, name, plan, dryRun, confirmed) ==> after == w)
      && (GoesAhead(w, name, plan, dryRun, confirmed) ==>
            && name in after.tables && Some(after.tables[name]) == ExecuteAll(TablesOf(w, name), plan.value.statements)
            && name in after.dangers && after.dangers[name] == plan.value.destructive
            && (forall other :: other != name ==>
                  && (other in after.tables <==> other in w.tables)
                  && (other in w.tables ==> after.tables[other] == w.tables[other]))
            && name in after.catalog.entities
            && var was, r := w.catalog.entities[name], after.catalog.entities[name];
            && r.status == Definitions.Published && r.publishedVersion == Some(was.version) && r.version == was.version
            && r.head == was.head && r.attributes == was.attributes
            && forall other :: other in w.catalog.entities && other != name ==>
                 other in after.catalog.entities && after.catalog.entities[other] == w.catalog.entities[other])
  {
    hide PlanOf, ExecuteAll, Definitions.Ledger, Definitions.PublishedCatalog;
    Revisions.PublishMeans(w.catalog, name);
  }
}

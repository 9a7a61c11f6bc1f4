/**
 The schema engine (app/services/ddl.py): the tables of the four tiers, the statements that
 create and alter them, and the plan that takes deployed tables to a model.
 */
module Migration {
  import opened Common
  import opened Values
  import opened TypeSystem
  import opened Identifiers

  datatype Tier = Landing | Staging | Live | History

  const TIERS := [Landing, Staging, Live, History]

  /** A business column of the model; `numericDefault` tells whether the default's text reads as a number. */
  datatype ColumnDef = ColumnDef(
    name: string,
    dataType: LogicalType,
    length: Option<int>,
    precision: Option<int>,
    scale: Option<int>,
    required: bool,
    unique: bool,
    default: Option<string>,
    numericDefault: bool,
    indexed: bool)

  /** A deployed column as information_schema reports it. */
  datatype Column = Column(name: string, pg: PgType, notNull: bool)

  datatype Table = Table(columns: seq<Column>, indexes: set<string>)

  type Schema = map<Tier, Table>

  predicate SystemName(name: string) {
    "mdm_" <= name
  }

  function Rendered(c: ColumnDef): Option<PgType> {
    PgTypeOf(c.dataType, c.length, c.precision, c.scale)
  }

  /** The type the model wants. Text stands in for one that does not render; no plan that is built contains it. */
  function Wanted(c: ColumnDef): PgType {
    if Rendered(c).Some? then Rendered(c).value else PgText
  }

  /** Validated names are not the platform's own, and no two attributes of an entity share one. */
  ghost predicate ValidNames(cols: seq<ColumnDef>) {
    && (forall i, j :: 0 <= i < j < |cols| ==> cols[i].name != cols[j].name)
    && (forall c :: c in cols ==> !SystemName(c.name))
  }

  /** There are columns, and every type renders. */
  ghost predicate ValidModel(cols: seq<ColumnDef>) {
    cols != [] && ValidNames(cols) && forall c :: c in cols ==> Rendered(c).Some?
  }

  function Find(columns: seq<Column>, name: string): (found: Option<Column>)
    ensures found.Some? ==> found.value in columns && found.value.name == name
    ensures found.None? ==> forall c :: c in columns ==> c.name != name
  {
    if columns == [] then None
    else if columns[0].name == name then Some(columns[0])
    else
      assert columns == [columns[0]] + columns[1..];
      Find(columns[1..], name)
  }

  // ---------------------------------------------------------------- plans

  datatype Statement =
    | CreateTable(tier: Tier, columns: seq<Column>)
    | CreateIndex(tier: Tier, index: string, on: seq<string>)
    | AddColumn(tier: Tier, column: Column, default: Option<string>)
    | AlterType(tier: Tier, name: string, pg: PgType)

  datatype Warning = AddedNullable(tier: Tier, name: string) | NoMatchKeyDefined | NoBusinessKeyDefined

  datatype Danger =
    | Narrowing(tier: Tier, name: string, found: PgType, wanted: PgType)
    | Removal(tier: Tier, name: string)

  datatype Plan = Plan(statements: seq<Statement>, warnings: seq<Warning>, destructive: seq<Danger>) {
    function Then(p: Plan): Plan {
      Plan(statements + p.statements, warnings + p.warnings, destructive + p.destructive)
    }
  }

  const NOTHING := Plan([], [], [])

  // ---------------------------------------------------------------- builders

  /** A name with the platform's own prefix. */
  function Mdm(suffix: string): (name: string)
    ensures SystemName(name)
  {
    "mdm_" + suffix
  }

  type SystemColumn = c: Column | SystemName(c.name) witness Column(Mdm("id"), PgUuid, true)

  function SystemColumns(tier: Tier): seq<SystemColumn> {
    match tier
    case Landing => [
      Column(Mdm("landing_id"), PgBigint, true), Column(Mdm("operation"), Varchar(10), true),
      Column(Mdm("payload"), PgJsonb, true), Column(Mdm("target_id"), Varchar(64), false),
      Column(Mdm("source_system"), Varchar(100), false), Column(Mdm("batch_id"), PgUuid, false),
      Column(Mdm("idempotency_key"), Varchar(255), false), Column(Mdm("submitted_by"), Varchar(255), false),
      Column(Mdm("received_at"), PgTimestamptz, true), Column(Mdm("status"), Varchar(20), true),
      Column(Mdm("errors"), PgJsonb, false), Column(Mdm("processed_at"), PgTimestamptz, false)]
    case Staging => [
      Column(Mdm("staging_id"), PgBigint, true), Column(Mdm("landing_id"), PgBigint, false),
      Column(Mdm("operation"), Varchar(10), true), Column(Mdm("target_id"), Varchar(64), false),
      Column(Mdm("match_key"), PgText, false), Column(Mdm("source_system"), Varchar(100), false),
      Column(Mdm("batch_id"), PgUuid, false), Column(Mdm("status"), Varchar(20), true),
      Column(Mdm("errors"), PgJsonb, true), Column(Mdm("is_valid"), PgBoolean, true),
      Column(Mdm("change_type"), Varchar(20), false), Column(Mdm("submitted_by"), Varchar(255), false),
      Column(Mdm("submitted_at"), PgTimestamptz, true), Column(Mdm("edited_by"), Varchar(255), false),
      Column(Mdm("edited_at"), PgTimestamptz, false), Column(Mdm("reviewed_by"), Varchar(255), false),
      Column(Mdm("reviewed_at"), PgTimestamptz, false), Column(Mdm("review_note"), PgText, false),
      Column(Mdm("supplied_fields"), PgJsonb, true)]
    case Live => [
      Column(Mdm("id"), PgUuid, true), Column(Mdm("version"), PgInteger, true),
      Column(Mdm("source_system"), Varchar(100), false), Column(Mdm("is_deleted"), PgBoolean, true),
      Column(Mdm("deleted_at"), PgTimestamptz, false), Column(Mdm("created_at"), PgTimestamptz, true),
      Column(Mdm("created_by"), Varchar(255), false), Column(Mdm("updated_at"), PgTimestamptz, true),
      Column(Mdm("updated_by"), Varchar(255), false), Column(Mdm("approved_by"), Varchar(255), false),
      Column(Mdm("staging_id"), PgBigint, false)]
    case History => [
      Column(Mdm("history_id"), PgBigint, true), Column(Mdm("id"), PgUuid, true),
      Column(Mdm("version"), PgInteger, true), Column(Mdm("change_type"), Varchar(20), true),
      Column(Mdm("valid_from"), PgTimestamptz, true), Column(Mdm("valid_to"), PgTimestamptz, true),
      Column(Mdm("changed_by"), Varchar(255), false), Column(Mdm("source_system"), Varchar(100), false),
      Column(Mdm("is_deleted"), PgBoolean, true), Column(Mdm("staging_id"), PgBigint, false)]
  }

  function Deployed(c: ColumnDef, notNull: bool): Column {
    Column(c.name, Wanted(c), notNull)
  }

  function BusinessColumns(tier: Tier, cols: seq<ColumnDef>): seq<Column> {
    if tier == Landing then []
    else seq(|cols|, i requires 0 <= i < |cols| => Deployed(cols[i], tier == Live && cols[i].required))
  }

  function FixedIndexes(tier: Tier, name: string): seq<Statement> {
    match tier
    case Landing => [
      CreateIndex(tier, "ix_" + name + "_landing_status", [Mdm("status"), Mdm("received_at")]),
      CreateIndex(tier, "ix_" + name + "_landing_batch", [Mdm("batch_id")]),
      CreateIndex(tier, "uq_" + name + "_landing_idem", [Mdm("idempotency_key")])]
    case Staging => [
      CreateIndex(tier, "ix_" + name + "_staging_status", [Mdm("status"), Mdm("submitted_at")]),
      CreateIndex(tier, "ix_" + name + "_staging_match", [Mdm("match_key")])]
    case Live => [CreateIndex(tier, "ix_" + name + "_live_active", [Mdm("is_deleted"), Mdm("updated_at")])]
    case History => [CreateIndex(tier, "ix_" + name + "_hist_record", [Mdm("id"), Mdm("version")])]
  }

  /** The index of a unique or indexed column; only live has them. */
  function ColumnIndex(name: string, c: ColumnDef): seq<Statement> {
    if c.unique then [CreateIndex(Live, "uq_" + name + "_" + c.name, [c.name])]
    else if c.indexed then [CreateIndex(Live, "ix_" + name + "_" + c.name, [c.name])]
    else []
  }

  function ColumnIndexes(name: string, cols: seq<ColumnDef>): seq<Statement> {
    if cols == [] then []
    else ColumnIndexes(name, cols[..|cols| - 1]) + ColumnIndex(name, cols[|cols| - 1])
  }

  function Creation(tier: Tier, name: string, cols: seq<ColumnDef>): seq<Statement> {
    [CreateTable(tier, SystemColumns(tier) + BusinessColumns(tier, cols))]
    + (if tier == Live then ColumnIndexes(name, cols) else [])
    + FixedIndexes(tier, name)
  }

  // ---------------------------------------------------------------- the alter plan

  predicate HasDefault(c: ColumnDef) {
    Truthy(c.default)
  }

  predicate DefaultRenders(c: ColumnDef) {
    HasDefault(c) ==> RenderedDefault(c.dataType, c.default.value, c.numericDefault).Some?
  }

  /** A builder renders the type and the default of each business column. */
  predicate ColumnRenders(c: ColumnDef) {
    Rendered(c).Some? && DefaultRenders(c)
  }

  /** What planning one tier renders without an error: all of a missing table, a missing column, a type to compare. */
  predicate TierRenders(db: Schema, cols: seq<ColumnDef>, tier: Tier) {
    tier == Landing ||
    if tier !in db then forall c :: c in cols ==> ColumnRenders(c)
    else forall c :: c in cols ==> AdditionRenders(db[tier].columns, c) && RetypingRenders(db[tier].columns, c)
  }

  predicate AdditionRenders(existing: seq<Column>, c: ColumnDef) {
    Find(existing, c.name).None? ==> ColumnRenders(c)
  }

  /** The type of a column deployed with a type outside the map is not even rendered. */
  predicate RetypingRenders(existing: seq<Column>, c: ColumnDef) {
    Find(existing, c.name).Some? && LogicalOf(Find(existing, c.name).value.pg).Some? ==> Rendered(c).Some?
  }

  /** Whether planning comes to an end: no columns, an impossible length or a malformed default stops it. */
  predicate Plannable(db: Schema, cols: seq<ColumnDef>) {
    cols != [] && forall tier :: TierRenders(db, cols, tier)
  }

  /** A missing column is added; required ones stay nullable when there is no default to fill them with. */
  function Addition(tier: Tier, existing: seq<Column>, c: ColumnDef): Plan {
    if Find(existing, c.name).Some? then NOTHING
    else
      var enforced := tier == Live && c.required;
      Plan([AddColumn(tier, Deployed(c, enforced && HasDefault(c)), if HasDefault(c) then c.default else None)],
           if enforced && !HasDefault(c) then [AddedNullable(tier, c.name)] else [],
           [])
  }

  /** A deployed column of another type is altered if that is safe, reported if it is not. */
  function Retyping(tier: Tier, existing: seq<Column>, c: ColumnDef): Plan {
    var cur := Find(existing, c.name);
    if cur.None? || LogicalOf(cur.value.pg).None? || cur.value.pg == Wanted(c) then NOTHING
    else if SafeWidening(LogicalOf(cur.value.pg).value, LengthOf(cur.value.pg), c.dataType, c.length)
    then Plan([AlterType(tier, c.name, Wanted(c))], [], [])
    else Plan([], [], [Narrowing(tier, c.name, cur.value.pg, Wanted(c))])
  }

  predicate InModel(cols: seq<ColumnDef>, name: string) {
    exists i :: 0 <= i < |cols| && cols[i].name == name
  }

  function Removed(tier: Tier, cols: seq<ColumnDef>, existing: seq<Column>): seq<Danger> {
    if existing == [] then []
    else
      var n := |existing| - 1;
      Removed(tier, cols, existing[..n])
      + if SystemName(existing[n].name) || InModel(cols, existing[n].name) then []
        else [Removal(tier, existing[n].name)]
  }

  function Additions(tier: Tier, existing: seq<Column>, cols: seq<ColumnDef>): Plan {
    if cols == [] then NOTHING
    else Additions(tier, existing, cols[..|cols| - 1]).Then(Addition(tier, existing, cols[|cols| - 1]))
  }

  function Retypings(tier: Tier, existing: seq<Column>, cols: seq<ColumnDef>): Plan {
    if cols == [] then NOTHING
    else Retypings(tier, existing, cols[..|cols| - 1]).Then(Retyping(tier, existing, cols[|cols| - 1]))
  }

  function TierPlan(db: Schema, name: string, cols: seq<ColumnDef>, tier: Tier): Plan {
    if tier !in db then Plan(Creation(tier, name, cols), [], [])
    else if tier == Landing then NOTHING
    else
      var existing := db[tier].columns;
      Additions(tier, existing, cols)
      .Then(Retypings(tier, existing, cols))
      .Then(Plan([], [], Removed(tier, cols, existing)))
      .Then(Plan(if tier == Live then ColumnIndexes(name, cols) else [], [], []))
  }

  function PlanUpTo(db: Schema, name: string, cols: seq<ColumnDef>, n: nat): Plan
    requires n <= |TIERS|
  {
    if n == 0 then NOTHING else PlanUpTo(db, name, cols, n - 1).Then(TierPlan(db, name, cols, TIERS[n - 1]))
  }

  /** The migration from the deployed tables to the model. */
  function AlterPlan(db: Schema, name: string, cols: seq<ColumnDef>): Plan {
    PlanUpTo(db, name, cols, |TIERS|)
  }

  function KeyWarnings(matchKey: bool, businessKey: bool): seq<Warning> {
    (if matchKey then [] else [NoMatchKeyDefined]) + (if businessKey then [] else [NoBusinessKeyDefined])
  }

  /** The full plan for an entity that is not deployed; the flags tell which kinds of key it has. */
  function CreatePlan(name: string, cols: seq<ColumnDef>, matchKey: bool, businessKey: bool): Plan {
    Plan(Creation(Landing, name, cols) + Creation(Staging, name, cols)
           + Creation(Live, name, cols) + Creation(History, name, cols),
         KeyWarnings(matchKey, businessKey), [])
  }

  // ---------------------------------------------------------------- execution

  function SetType(columns: seq<Column>, name: string, pg: PgType): seq<Column> {
    seq(|columns|, i requires 0 <= i < |columns| =>
      if columns[i].name == name then columns[i].(pg := pg) else columns[i])
  }

  /** One statement; None where PostgreSQL reports that the object is missing or already there. */
  function Execute(db: Schema, stmt: Statement): Option<Schema> {
    match stmt
    case CreateTable(tier, columns) => Some(if tier in db then db else db[tier := Table(columns, {})])
    case CreateIndex(tier, index, on) =>
      if tier !in db || exists i :: 0 <= i < |on| && Find(db[tier].columns, on[i]).None? then None
      else Some(db[tier := db[tier].(indexes := db[tier].indexes + {index})])
    case AddColumn(tier, column, _) =>
      if tier !in db || Find(db[tier].columns, column.name).Some? then None
      else Some(db[tier := db[tier].(columns := db[tier].columns + [column])])
    case AlterType(tier, name, pg) =>
      if tier !in db || Find(db[tier].columns, name).None? then None
      else Some(db[tier := db[tier].(columns := SetType(db[tier].columns, name, pg))])
  }

  function ExecuteAll(db: Schema, stmts: seq<Statement>): Option<Schema> {
    if stmts == [] then Some(db)
    else
      var before := ExecuteAll(db, stmts[..|stmts| - 1]);
      if before.None? then None else Execute(before.value, stmts[|stmts| - 1])
  }

  datatype Applied = RefusedDestructive | Failed | Done(executed: nat)

  /** A destructive plan needs confirmation; either way only its statements are executed, all or nothing. */
  function ApplyOutcome(db: Schema, plan: Plan, allowDestructive: bool): Applied {
    if plan.destructive != [] && !allowDestructive then RefusedDestructive
    else if ExecuteAll(db, plan.statements).None? then Failed
    else Done(|plan.statements|)
  }

  function ApplyPlan(db: Schema, plan: Plan, allowDestructive: bool): Schema {
    if ApplyOutcome(db, plan, allowDestructive).Done? then ExecuteAll(db, plan.statements).value else db
  }
}

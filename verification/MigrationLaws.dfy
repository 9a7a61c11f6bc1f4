/**
 Migration laws: what executing an alter plan does to the deployed columns, when it brings them to
 the model, what planning again then finds, and what no sequence of publishes ever loses.
 */
module MigrationLaws {
  import opened Common
  import opened Values
  import opened TypeSystem
  import opened Migration

  // ---------------------------------------------------------------- lookups

  lemma {:induction false} FindConcat(a: seq<Column>, b: seq<Column>, name: string)
    ensures Find(a + b, name) == if Find(a, name).Some? then Find(a, name) else Find(b, name)
  {
    if a == [] {
      assert a + b == b;
    } else {
      assert (a + b)[1..] == a[1..] + b;
      FindConcat(a[1..], b, name);
    }
  }

  ghost predicate Unique(columns: seq<Column>) {
    forall i, j :: 0 <= i < j < |columns| ==> columns[i].name != columns[j].name
  }

  lemma {:induction false} FindAt(columns: seq<Column>, i: nat)
    requires Unique(columns) && i < |columns|
    ensures Find(columns, columns[i].name) == Some(columns[i])
  {
    if i > 0 {
      FindAt(columns[1..], i - 1);
    }
  }

  // ---------------------------------------------------------------- what the statements do

  /** The columns a tier lacks, in model order. */
  function Missing(tier: Tier, existing: seq<Column>, cols: seq<ColumnDef>): seq<Column> {
    if cols == [] then []
    else
      var c := cols[|cols| - 1];
      Missing(tier, existing, cols[..|cols| - 1]) + MissingColumn(tier, existing, c)
  }

  function MissingColumn(tier: Tier, existing: seq<Column>, c: ColumnDef): seq<Column> {
    if Find(existing, c.name).Some? then [] else [Deployed(c, tier == Live && c.required && HasDefault(c))]
  }

  /** A column's type after the safe type changes. */
  function NewType(existing: seq<Column>, cols: seq<ColumnDef>, name: string, pg: PgType): PgType {
    if cols == [] then pg
    else
      var c, before := cols[|cols| - 1], NewType(existing, cols[..|cols| - 1], name, pg);
      if c.name == name && Alters(existing, c) then Wanted(c) else before
  }

  /** The plan changes the column's type. */
  predicate Alters(existing: seq<Column>, c: ColumnDef) {
    var cur := Find(existing, c.name);
    && cur.Some? && LogicalOf(cur.value.pg).Some? && cur.value.pg != Wanted(c)
    && SafeWidening(LogicalOf(cur.value.pg).value, LengthOf(cur.value.pg), c.dataType, c.length)
  }

  function Retyped(existing: seq<Column>, cols: seq<ColumnDef>, columns: seq<Column>): seq<Column> {
    seq(|columns|, i requires 0 <= i < |columns| =>
      columns[i].(pg := NewType(existing, cols, columns[i].name, columns[i].pg)))
  }

  lemma {:induction false} ExecuteConcat(db: Schema, a: seq<Statement>, b: seq<Statement>)
    ensures ExecuteAll(db, a + b) ==
      if ExecuteAll(db, a).None? then None else ExecuteAll(ExecuteAll(db, a).value, b)
  {
    hide Execute;
    if b == [] {
      assert a + b == a;
    } else {
      assert (a + b)[..|a + b| - 1] == a + b[..|b| - 1];
      ExecuteConcat(db, a, b[..|b| - 1]);
    }
  }

  lemma ExecuteOne(db: Schema, stmt: Statement)
    ensures ExecuteAll(db, [stmt]) == Execute(db, stmt)
  {
    hide Execute;
    assert [stmt][..0] == [];
    assert ExecuteAll(db, [stmt][..0]) == Some(db);
  }

  lemma MissingNames(tier: Tier, existing: seq<Column>, cols: seq<ColumnDef>, name: string)
    requires Find(Missing(tier, existing, cols), name).Some?
    ensures InModel(cols, name) && Find(existing, name).None?
  {
    if cols != [] {
      var n := |cols| - 1;
      FindConcat(Missing(tier, existing, cols[..n]), MissingColumn(tier, existing, cols[n]), name);
      if Find(Missing(tier, existing, cols[..n]), name).Some? {
        MissingNames(tier, existing, cols[..n], name);
        var i :| 0 <= i < n && cols[..n][i].name == name;
        assert cols[i].name == name;
      } else {
        assert cols[n].name == name;
      }
    }
  }

  function Put(db: Schema, tier: Tier, columns: seq<Column>): Schema
    requires tier in db
  {
    db[tier := db[tier].(columns := columns)]
  }

  lemma PutSame(db: Schema, tier: Tier)
    requires tier in db
    ensures Put(db, tier, db[tier].columns) == db
  {
  }

  lemma AddOne(db: Schema, tier: Tier, columns: seq<Column>, column: Column, default: Option<string>)
    requires tier in db && Find(columns, column.name).None?
    ensures ExecuteAll(Put(db, tier, columns), [AddColumn(tier, column, default)])
         == Some(Put(db, tier, columns + [column]))
  {
    ExecuteOne(Put(db, tier, columns), AddColumn(tier, column, default));
    assert db[tier].(columns := columns).(columns := columns + [column]) == db[tier].(columns := columns + [column]);
    assert Put(Put(db, tier, columns), tier, columns + [column]) == Put(db, tier, columns + [column]);
  }

  /** The next model column is not among those added before it. */
  lemma NotYetAdded(tier: Tier, existing: seq<Column>, cols: seq<ColumnDef>, n: nat)
    requires n < |cols| && Find(existing, cols[n].name).None?
    requires forall i, j :: 0 <= i < j < |cols| ==> cols[i].name != cols[j].name
    ensures Find(existing + Missing(tier, existing, cols[..n]), cols[n].name).None?
  {
    var before := Missing(tier, existing, cols[..n]);
    FindConcat(existing, before, cols[n].name);
    assert !InModel(cols[..n], cols[n].name);
    if Find(before, cols[n].name).Some? {
      MissingNames(tier, existing, cols[..n], cols[n].name);
    }
  }

  lemma {:induction false} AdditionsExecute(db: Schema, tier: Tier, cols: seq<ColumnDef>)
    requires tier in db
    requires forall i, j :: 0 <= i < j < |cols| ==> cols[i].name != cols[j].name
    ensures var existing := db[tier].columns;
      ExecuteAll(db, Additions(tier, existing, cols).statements)
        == Some(Put(db, tier, existing + Missing(tier, existing, cols)))
  {
    hide Put, ExecuteAll, Wanted;
    var existing := db[tier].columns;
    if cols == [] {
      PutSame(db, tier);
      assert existing + [] == existing;
      ExecuteNone(db);
    } else {
      var n := |cols| - 1;
      var c, before := cols[n], Missing(tier, existing, cols[..n]);
      AdditionsExecute(db, tier, cols[..n]);
      var added := Addition(tier, existing, c).statements;
      ExecuteConcat(db, Additions(tier, existing, cols[..n]).statements, added);
      if Find(existing, c.name).None? {
        NotYetAdded(tier, existing, cols, n);
        AddOne(db, tier, existing + before, added[0].column, added[0].default);
        assert existing + before + [added[0].column] == existing + Missing(tier, existing, cols);
      } else {
        assert before + [] == before;
        ExecuteNone(Put(db, tier, existing + before));
      }
    }
  }

  lemma ExecuteNone(db: Schema)
    ensures ExecuteAll(db, []) == Some(db)
  {
  }

  // ---------------------------------------------------------------- type changes

  lemma {:induction false} FindRenamed(a: seq<Column>, b: seq<Column>, name: string)
    requires |a| == |b| && forall i :: 0 <= i < |a| ==> a[i].name == b[i].name
    ensures Find(a, name).Some? <==> Find(b, name).Some?
  {
    if a != [] {
      FindRenamed(a[1..], b[1..], name);
    }
  }

  lemma AlterOne(db: Schema, tier: Tier, columns: seq<Column>, name: string, pg: PgType)
    requires tier in db && Find(columns, name).Some?
    ensures ExecuteAll(Put(db, tier, columns), [AlterType(tier, name, pg)])
         == Some(Put(db, tier, SetType(columns, name, pg)))
  {
    ExecuteOne(Put(db, tier, columns), AlterType(tier, name, pg));
    var after := SetType(columns, name, pg);
    assert db[tier].(columns := columns).(columns := after) == db[tier].(columns := after);
    assert Put(Put(db, tier, columns), tier, after) == Put(db, tier, after);
  }

  lemma {:induction false} RetypingsExecute(db: Schema, tier: Tier, existing: seq<Column>, more: seq<Column>,
                                            cols: seq<ColumnDef>)
    requires tier in db
    ensures ExecuteAll(Put(db, tier, existing + more), Retypings(tier, existing, cols).statements)
         == Some(Put(db, tier, Retyped(existing, cols, existing + more)))
  {
    hide Put, ExecuteAll, Wanted, SafeWidening, LogicalOf;
    var columns := existing + more;
    if cols == [] {
      ExecuteNone(Put(db, tier, columns));
      assert Retyped(existing, [], columns) == columns;
    } else {
      var n := |cols| - 1;
      var c, before := cols[n], Retyped(existing, cols[..n], columns);
      RetypingsExecute(db, tier, existing, more, cols[..n]);
      var altered := Retyping(tier, existing, c).statements;
      ExecuteConcat(Put(db, tier, columns), Retypings(tier, existing, cols[..n]).statements, altered);
      if Alters(existing, c) {
        FindConcat(existing, more, c.name);
        FindRenamed(columns, before, c.name);
        AlterOne(db, tier, before, c.name, Wanted(c));
        assert SetType(before, c.name, Wanted(c)) == Retyped(existing, cols, columns);
      } else {
        ExecuteNone(Put(db, tier, before));
        assert Retyped(existing, cols, columns) == before;
      }
    }
  }

  // ---------------------------------------------------------------- indexes

  /** Same tables with the same columns; indexes may differ. */
  ghost predicate SameColumns(db: Schema, after: Schema) {
    after.Keys == db.Keys && forall t :: t in db ==> after[t].columns == db[t].columns
  }

  predicate Indexable(columns: seq<Column>, tier: Tier, stmt: Statement) {
    stmt.CreateIndex? && stmt.tier == tier && forall i :: 0 <= i < |stmt.on| ==> Find(columns, stmt.on[i]).Some?
  }

  lemma {:induction false} IndexesExecute(db: Schema, tier: Tier, stmts: seq<Statement>)
    requires tier in db && forall i :: 0 <= i < |stmts| ==> Indexable(db[tier].columns, tier, stmts[i])
    ensures ExecuteAll(db, stmts).Some? && SameColumns(db, ExecuteAll(db, stmts).value)
    ensures forall t :: t in db && t != tier ==> ExecuteAll(db, stmts).value[t] == db[t]
  {
    if stmts != [] {
      IndexesExecute(db, tier, stmts[..|stmts| - 1]);
      assert Indexable(db[tier].columns, tier, stmts[|stmts| - 1]);
    }
  }

  lemma {:induction false} ColumnIndexesAre(name: string, cols: seq<ColumnDef>, columns: seq<Column>)
    requires forall c :: c in cols ==> Find(columns, c.name).Some?
    ensures forall i :: 0 <= i < |ColumnIndexes(name, cols)| ==> Indexable(columns, Live, ColumnIndexes(name, cols)[i])
  {
    if cols != [] {
      ColumnIndexesAre(name, cols[..|cols| - 1], columns);
    }
  }

  lemma SystemColumnPresent(tier: Tier, more: seq<Column>, i: nat, name: string)
    requires i < |SystemColumns(tier)| && SystemColumns(tier)[i].name == name
    ensures Find(SystemColumns(tier) + more, name).Some?
  {
    hide SystemColumns;
    assert (SystemColumns(tier) + more)[i] in SystemColumns(tier) + more;
  }

  function FixedOn(tier: Tier): set<string> {
    match tier
    case Landing => {Mdm("status"), Mdm("received_at"), Mdm("batch_id"), Mdm("idempotency_key")}
    case Staging => {Mdm("status"), Mdm("submitted_at"), Mdm("match_key")}
    case Live => {Mdm("is_deleted"), Mdm("updated_at")}
    case History => {Mdm("id"), Mdm("version")}
  }

  lemma FixedNames(tier: Tier, name: string, columns: seq<Column>)
    requires forall n :: n in FixedOn(tier) ==> Find(columns, n).Some?
    ensures forall i :: 0 <= i < |FixedIndexes(tier, name)| ==> Indexable(columns, tier, FixedIndexes(tier, name)[i])
  {
    hide Find, SystemColumns;
  }

  lemma LandingPositions()
    ensures 9 < |SystemColumns(Landing)| && SystemColumns(Landing)[9].name == Mdm("status")
    ensures 8 < |SystemColumns(Landing)| && SystemColumns(Landing)[8].name == Mdm("received_at")
    ensures 5 < |SystemColumns(Landing)| && SystemColumns(Landing)[5].name == Mdm("batch_id")
    ensures 6 < |SystemColumns(Landing)| && SystemColumns(Landing)[6].name == Mdm("idempotency_key")
  {
  }

  lemma LandingNames(more: seq<Column>)
    ensures forall n :: n in FixedOn(Landing) ==> Find(SystemColumns(Landing) + more, n).Some?
  {
    hide SystemColumns;
    LandingPositions();
    SystemColumnPresent(Landing, more, 9, Mdm("status"));
    SystemColumnPresent(Landing, more, 8, Mdm("received_at"));
    SystemColumnPresent(Landing, more, 5, Mdm("batch_id"));
    SystemColumnPresent(Landing, more, 6, Mdm("idempotency_key"));
  }

  lemma StagingPositions()
    ensures 7 < |SystemColumns(Staging)| && SystemColumns(Staging)[7].name == Mdm("status")
    ensures 12 < |SystemColumns(Staging)| && SystemColumns(Staging)[12].name == Mdm("submitted_at")
    ensures 4 < |SystemColumns(Staging)| && SystemColumns(Staging)[4].name == Mdm("match_key")
  {
  }

  lemma StagingNames(more: seq<Column>)
    ensures forall n :: n in FixedOn(Staging) ==> Find(SystemColumns(Staging) + more, n).Some?
  {
    hide SystemColumns;
    StagingPositions();
    SystemColumnPresent(Staging, more, 7, Mdm("status"));
    SystemColumnPresent(Staging, more, 12, Mdm("submitted_at"));
    SystemColumnPresent(Staging, more, 4, Mdm("match_key"));
  }

  lemma LivePositions()
    ensures 3 < |SystemColumns(Live)| && SystemColumns(Live)[3].name == Mdm("is_deleted")
    ensures 7 < |SystemColumns(Live)| && SystemColumns(Live)[7].name == Mdm("updated_at")
  {
  }

  lemma LiveNames(more: seq<Column>)
    ensures forall n :: n in FixedOn(Live) ==> Find(SystemColumns(Live) + more, n).Some?
  {
    hide SystemColumns;
    LivePositions();
    SystemColumnPresent(Live, more, 3, Mdm("is_deleted"));
    SystemColumnPresent(Live, more, 7, Mdm("updated_at"));
  }

  lemma HistoryPositions()
    ensures 1 < |SystemColumns(History)| && SystemColumns(History)[1].name == Mdm("id")
    ensures 2 < |SystemColumns(History)| && SystemColumns(History)[2].name == Mdm("version")
  {
  }

  lemma HistoryNames(more: seq<Column>)
    ensures forall n :: n in FixedOn(History) ==> Find(SystemColumns(History) + more, n).Some?
  {
    hide SystemColumns;
    HistoryPositions();
    SystemColumnPresent(History, more, 1, Mdm("id"));
    SystemColumnPresent(History, more, 2, Mdm("version"));
  }

  /** A new tier has every column its indexes are on. */
  lemma FixedIndexesAre(tier: Tier, name: string, more: seq<Column>)
    ensures var columns, stmts := SystemColumns(tier) + more, FixedIndexes(tier, name);
      forall i :: 0 <= i < |stmts| ==> Indexable(columns, tier, stmts[i])
  {
    hide SystemColumns, FixedIndexes, FixedOn;
    match tier {
      case Landing => LandingNames(more);
      case Staging => StagingNames(more);
      case Live => LiveNames(more);
      case History => HistoryNames(more);
    }
    FixedNames(tier, name, SystemColumns(tier) + more);
  }

  // ---------------------------------------------------------------- one tier, then all four

  /** The columns a tier has once its part of the plan is executed. */
  function Target(db: Schema, cols: seq<ColumnDef>, tier: Tier): seq<Column> {
    if tier !in db then SystemColumns(tier) + BusinessColumns(tier, cols)
    else if tier == Landing then db[tier].columns
    else Retyped(db[tier].columns, cols, db[tier].columns + Missing(tier, db[tier].columns, cols))
  }

  /** A tier reaches its target and the other tiers stay. */
  ghost predicate Reaches(db: Schema, after: Schema, tier: Tier, columns: seq<Column>) {
    && after.Keys == db.Keys + {tier} && after[tier].columns == columns
    && forall t :: t in db && t != tier ==> after[t] == db[t]
  }

  lemma {:induction false} MissingAll(tier: Tier, existing: seq<Column>, cols: seq<ColumnDef>, c: ColumnDef)
    requires c in cols
    ensures Find(existing + Missing(tier, existing, cols), c.name).Some?
  {
    hide Wanted, Find;
    var n := |cols| - 1;
    var before, all := Missing(tier, existing, cols[..n]), Missing(tier, existing, cols);
    var last := MissingColumn(tier, existing, cols[n]);
    assert all == before + last;
    FindConcat(existing, all, c.name);
    FindConcat(before, last, c.name);
    if c != cols[n] {
      FindConcat(existing, before, c.name);
      MissingAll(tier, existing, cols[..n], c);
    }
  }

  lemma BusinessAll(tier: Tier, cols: seq<ColumnDef>, c: ColumnDef)
    requires c in cols && tier != Landing
    ensures Find(SystemColumns(tier) + BusinessColumns(tier, cols), c.name).Some?
  {
    hide SystemColumns;
    var i :| 0 <= i < |cols| && cols[i] == c;
    var columns := SystemColumns(tier) + BusinessColumns(tier, cols);
    assert columns[|SystemColumns(tier)| + i].name == c.name;
  }

  /** Creating a missing tier. */
  lemma CreationExecutes(db: Schema, name: string, cols: seq<ColumnDef>, tier: Tier)
    requires tier !in db
    ensures ExecuteAll(db, Creation(tier, name, cols)).Some?
    ensures var after := ExecuteAll(db, Creation(tier, name, cols)).value;
      Reaches(db, after, tier, SystemColumns(tier) + BusinessColumns(tier, cols))
  {
    hide SystemColumns, ExecuteAll, FixedIndexes, ColumnIndexes, Find;
    var columns := SystemColumns(tier) + BusinessColumns(tier, cols);
    var create := CreateTable(tier, columns);
    var created := db[tier := Table(columns, {})];
    var indexes := (if tier == Live then ColumnIndexes(name, cols) else []) + FixedIndexes(tier, name);
    assert Creation(tier, name, cols) == [create] + indexes;
    ExecuteOne(db, create);
    ExecuteConcat(db, [create], indexes);
    FixedIndexesAre(tier, name, BusinessColumns(tier, cols));
    if tier == Live {
      forall c | c in cols ensures Find(columns, c.name).Some? {
        BusinessAll(tier, cols, c);
      }
      ColumnIndexesAre(name, cols, columns);
    }
    IndexesExecute(created, tier, indexes);
  }

  /** Altering a deployed tier. */
  lemma AlterationExecutes(db: Schema, name: string, cols: seq<ColumnDef>, tier: Tier)
    requires ValidNames(cols) && tier in db && tier != Landing
    ensures ExecuteAll(db, TierPlan(db, name, cols, tier).statements).Some?
    ensures Reaches(db, ExecuteAll(db, TierPlan(db, name, cols, tier).statements).value, tier, Target(db, cols, tier))
  {
    hide ExecuteAll, Additions, Retypings, Missing, Retyped, ColumnIndexes, Removed, Find, Wanted;
    var existing := db[tier].columns;
    var more := Missing(tier, existing, cols);
    var adds, alters := Additions(tier, existing, cols).statements, Retypings(tier, existing, cols).statements;
    var indexes := if tier == Live then ColumnIndexes(name, cols) else [];
    assert TierPlan(db, name, cols, tier).statements == adds + alters + indexes;
    AdditionsExecute(db, tier, cols);
    RetypingsExecute(db, tier, existing, more, cols);
    ExecuteConcat(db, adds, alters);
    ExecuteConcat(db, adds + alters, indexes);
    var target := Target(db, cols, tier);
    forall c | c in cols ensures Find(target, c.name).Some? {
      MissingAll(tier, existing, cols, c);
      RetypedNames(existing, cols, existing + more);
      FindRenamed(existing + more, target, c.name);
    }
    ColumnIndexesAre(name, cols, target);
    IndexesExecute(Put(db, tier, target), tier, indexes);
  }

  lemma RetypedNames(existing: seq<Column>, cols: seq<ColumnDef>, columns: seq<Column>)
    ensures |Retyped(existing, cols, columns)| == |columns|
    ensures forall i :: 0 <= i < |columns| ==> Retyped(existing, cols, columns)[i].name == columns[i].name
  {
  }

  lemma TierExecutes(db: Schema, name: string, cols: seq<ColumnDef>, tier: Tier)
    requires ValidNames(cols)
    ensures ExecuteAll(db, TierPlan(db, name, cols, tier).statements).Some?
    ensures Reaches(db, ExecuteAll(db, TierPlan(db, name, cols, tier).statements).value, tier, Target(db, cols, tier))
  {
    if tier !in db {
      CreationExecutes(db, name, cols, tier);
    } else if tier != Landing {
      AlterationExecutes(db, name, cols, tier);
    }
  }

  /** The first n tiers are at their target, the others as they were. */
  ghost predicate Partway(db: Schema, mid: Schema, cols: seq<ColumnDef>, n: nat)
    requires n <= |TIERS|
  {
    && (forall i :: 0 <= i < n ==> TIERS[i] in mid && mid[TIERS[i]].columns == Target(db, cols, TIERS[i]))
    && (forall i :: n <= i < |TIERS| ==>
        (TIERS[i] in mid <==> TIERS[i] in db) && (TIERS[i] in db ==> mid[TIERS[i]] == db[TIERS[i]]))
  }

  lemma {:induction false} PlanExecutesUpTo(db: Schema, name: string, cols: seq<ColumnDef>, n: nat)
    requires ValidNames(cols) && n <= |TIERS|
    ensures ExecuteAll(db, PlanUpTo(db, name, cols, n).statements).Some?
    ensures Partway(db, ExecuteAll(db, PlanUpTo(db, name, cols, n).statements).value, cols, n)
  {
    hide ExecuteAll, TierPlan, Target, Wanted;
    if n == 0 {
      ExecuteNone(db);
    } else {
      var tier := TIERS[n - 1];
      PlanExecutesUpTo(db, name, cols, n - 1);
      var mid := ExecuteAll(db, PlanUpTo(db, name, cols, n - 1).statements).value;
      PlanIsLocal(db, mid, name, cols, tier);
      TierExecutes(mid, name, cols, tier);
      ExecuteConcat(db, PlanUpTo(db, name, cols, n - 1).statements, TierPlan(db, name, cols, tier).statements);
    }
  }

  /** A tier's part of the plan depends on that tier alone. */
  lemma PlanIsLocal(db: Schema, mid: Schema, name: string, cols: seq<ColumnDef>, tier: Tier)
    requires (tier in mid <==> tier in db) && (tier in db ==> mid[tier] == db[tier])
    ensures TierPlan(mid, name, cols, tier) == TierPlan(db, name, cols, tier)
    ensures Target(mid, cols, tier) == Target(db, cols, tier)
  {
  }

  /** Executing an alter plan never fails, creates every missing tier and brings each tier to its target. */
  lemma PlanExecutes(db: Schema, name: string, cols: seq<ColumnDef>)
    requires ValidNames(cols)
    ensures ExecuteAll(db, AlterPlan(db, name, cols).statements).Some?
    ensures var after := ExecuteAll(db, AlterPlan(db, name, cols).statements).value;
      forall tier :: tier in after && after[tier].columns == Target(db, cols, tier)
  {
    PlanExecutesUpTo(db, name, cols, |TIERS|);
    var after := ExecuteAll(db, AlterPlan(db, name, cols).statements).value;
    forall tier: Tier ensures tier in after && after[tier].columns == Target(db, cols, tier) {
      EveryTier(tier);
      var i :| 0 <= i < |TIERS| && TIERS[i] == tier;
    }
  }

  lemma EveryTier(tier: Tier)
    ensures tier in TIERS
  {
    assert TIERS[0] == Landing && TIERS[1] == Staging && TIERS[2] == Live && TIERS[3] == History;
  }

  // ---------------------------------------------------------------- what a target holds

  lemma {:induction false} NewTypeIs(existing: seq<Column>, cols: seq<ColumnDef>, name: string, pg: PgType)
    requires forall i, j :: 0 <= i < j < |cols| ==> cols[i].name != cols[j].name
    ensures forall c :: c in cols && c.name == name ==>
      NewType(existing, cols, name, pg) == if Alters(existing, c) then Wanted(c) else pg
    ensures !InModel(cols, name) ==> NewType(existing, cols, name, pg) == pg
  {
    hide Alters, Wanted;
    if cols != [] {
      var n := |cols| - 1;
      NewTypeIs(existing, cols[..n], name, pg);
      assert InModel(cols[..n], name) ==> cols[n].name != name;
      forall c | c in cols && c.name == name
        ensures NewType(existing, cols, name, pg) == if Alters(existing, c) then Wanted(c) else pg
      {
        var i :| 0 <= i < |cols| && cols[i] == c;
        if i == n {
          assert !InModel(cols[..n], name);
        } else {
          assert cols[..n][i] == c;
        }
      }
    }
  }

  lemma {:induction false} FindRetyped(existing: seq<Column>, cols: seq<ColumnDef>, columns: seq<Column>, name: string)
    ensures Find(Retyped(existing, cols, columns), name) ==
      match Find(columns, name) case None => None case Some(c) => Some(c.(pg := NewType(existing, cols, name, c.pg)))
  {
    hide NewType;
    if columns != [] {
      assert Retyped(existing, cols, columns)[1..] == Retyped(existing, cols, columns[1..]);
      FindRetyped(existing, cols, columns[1..], name);
    }
  }

  lemma SystemNames(tier: Tier)
    ensures forall c :: c in SystemColumns(tier) ==> SystemName(c.name)
  {
    hide SystemColumns;
  }

  lemma {:induction false} MissingHas(tier: Tier, existing: seq<Column>, cols: seq<ColumnDef>, c: ColumnDef)
    requires c in cols && Find(existing, c.name).None?
    requires forall i, j :: 0 <= i < j < |cols| ==> cols[i].name != cols[j].name
    ensures Find(Missing(tier, existing, cols), c.name).Some?
    ensures Find(Missing(tier, existing, cols), c.name).value.pg == Wanted(c)
  {
    hide Wanted;
    var n := |cols| - 1;
    var before := Missing(tier, existing, cols[..n]);
    var last := MissingColumn(tier, existing, cols[n]);
    assert Missing(tier, existing, cols) == before + last;
    FindConcat(before, last, c.name);
    if c == cols[n] {
      FindConcat(existing, before, c.name);
      NotYetAdded(tier, existing, cols, n);
    } else {
      MissingHas(tier, existing, cols[..n], c);
    }
  }

  lemma BusinessHas(tier: Tier, cols: seq<ColumnDef>, c: ColumnDef)
    requires ValidNames(cols) && c in cols && tier != Landing
    ensures var found := Find(BusinessColumns(tier, cols), c.name);
      found.Some? && found.value.pg == Wanted(c)
  {
    hide Wanted;
    var business := BusinessColumns(tier, cols);
    var i :| 0 <= i < |cols| && cols[i] == c;
    assert forall p :: 0 <= p < |business| ==> business[p].name == cols[p].name;
    FindAt(business, i);
  }

  /** The column a created tier has for a model column. */
  lemma CreatedColumn(tier: Tier, cols: seq<ColumnDef>, c: ColumnDef)
    requires ValidNames(cols) && c in cols && tier != Landing
    ensures var found := Find(SystemColumns(tier) + BusinessColumns(tier, cols), c.name);
      found.Some? && found.value.pg == Wanted(c)
  {
    hide SystemColumns, Wanted, SystemName, BusinessColumns;
    SystemNames(tier);
    FindConcat(SystemColumns(tier), BusinessColumns(tier, cols), c.name);
    BusinessHas(tier, cols, c);
  }

  /** The type a model column ends up with: the rendered one, unless it was deployed and not altered. */
  function FinalType(db: Schema, tier: Tier, c: ColumnDef): PgType {
    var cur := if tier in db then Find(db[tier].columns, c.name) else None;
    if cur.None? || Alters(db[tier].columns, c) then Wanted(c) else cur.value.pg
  }

  lemma TargetColumn(db: Schema, cols: seq<ColumnDef>, tier: Tier, c: ColumnDef)
    requires ValidNames(cols) && c in cols && tier != Landing
    ensures var found := Find(Target(db, cols, tier), c.name);
      found.Some? && found.value.pg == FinalType(db, tier, c)
  {
    hide SystemColumns, Wanted, Alters;
    if tier !in db {
      CreatedColumn(tier, cols, c);
    } else {
      var existing := db[tier].columns;
      var more := Missing(tier, existing, cols);
      FindConcat(existing, more, c.name);
      FindRetyped(existing, cols, existing + more, c.name);
      if Find(existing, c.name).None? {
        MissingHas(tier, existing, cols, c);
        NewTypeIs(existing, cols, c.name, Wanted(c));
      } else {
        NewTypeIs(existing, cols, c.name, Find(existing, c.name).value.pg);
      }
    }
  }

  /** Every column of the table belongs to the platform or to the model. */
  ghost predicate NothingExtra(columns: seq<Column>, cols: seq<ColumnDef>) {
    forall i :: 0 <= i < |columns| ==> SystemName(columns[i].name) || InModel(cols, columns[i].name)
  }

  lemma MissingInModel(tier: Tier, existing: seq<Column>, cols: seq<ColumnDef>)
    ensures NothingExtra(Missing(tier, existing, cols), cols)
  {
    var more := Missing(tier, existing, cols);
    forall i | 0 <= i < |more| ensures InModel(cols, more[i].name) {
      assert more[i] in more;
      MissingNames(tier, existing, cols, more[i].name);
    }
  }

  lemma ExtrasConcat(a: seq<Column>, b: seq<Column>, cols: seq<ColumnDef>)
    ensures NothingExtra(a + b, cols) <==> NothingExtra(a, cols) && NothingExtra(b, cols)
  {
    hide SystemName, InModel;
    assert forall i :: 0 <= i < |a| ==> (a + b)[i] == a[i];
    assert forall i :: 0 <= i < |b| ==> (a + b)[|a| + i] == b[i];
  }

  lemma ExtrasRenamed(a: seq<Column>, b: seq<Column>, cols: seq<ColumnDef>)
    requires |a| == |b| && forall i :: 0 <= i < |a| ==> a[i].name == b[i].name
    ensures NothingExtra(a, cols) <==> NothingExtra(b, cols)
  {
    hide SystemName, InModel;
  }

  lemma CreatedExtras(tier: Tier, cols: seq<ColumnDef>)
    ensures NothingExtra(SystemColumns(tier), cols) && NothingExtra(BusinessColumns(tier, cols), cols)
  {
    hide SystemColumns, SystemName, Wanted;
    SystemNames(tier);
    assert forall i :: 0 <= i < |SystemColumns(tier)| ==> SystemColumns(tier)[i] in SystemColumns(tier);
    var business := BusinessColumns(tier, cols);
    forall i | 0 <= i < |business| ensures InModel(cols, business[i].name) {
      assert cols[i].name == business[i].name;
    }
  }

  lemma TargetExtras(db: Schema, cols: seq<ColumnDef>, tier: Tier)
    requires ValidNames(cols) && tier != Landing
    ensures NothingExtra(Target(db, cols, tier), cols) <==> tier in db ==> NothingExtra(db[tier].columns, cols)
  {
    hide SystemColumns, Wanted, NothingExtra, BusinessColumns, Retyped;
    if tier !in db {
      CreatedExtras(tier, cols);
      ExtrasConcat(SystemColumns(tier), BusinessColumns(tier, cols), cols);
    } else {
      var existing := db[tier].columns;
      var more := Missing(tier, existing, cols);
      MissingInModel(tier, existing, cols);
      ExtrasConcat(existing, more, cols);
      RetypedNames(existing, cols, existing + more);
      ExtrasRenamed(existing + more, Target(db, cols, tier), cols);
    }
  }

  // ---------------------------------------------------------------- what the plan reports

  lemma {:induction false} RemovedNone(tier: Tier, cols: seq<ColumnDef>, existing: seq<Column>)
    ensures Removed(tier, cols, existing) == [] <==> NothingExtra(existing, cols)
  {
    if existing != [] {
      RemovedNone(tier, cols, existing[..|existing| - 1]);
    }
  }

  predicate Narrows(existing: seq<Column>, c: ColumnDef) {
    var cur := Find(existing, c.name);
    cur.Some? && LogicalOf(cur.value.pg).Some? && cur.value.pg != Wanted(c) && !Alters(existing, c)
  }

  lemma {:induction false} NarrowingsNone(tier: Tier, existing: seq<Column>, cols: seq<ColumnDef>)
    ensures Retypings(tier, existing, cols).destructive == []
       <==> forall i :: 0 <= i < |cols| ==> !Narrows(existing, cols[i])
    ensures Retypings(tier, existing, cols).warnings == []
  {
    if cols != [] {
      NarrowingsNone(tier, existing, cols[..|cols| - 1]);
    }
  }

  lemma {:induction false} AdditionsHarmless(tier: Tier, existing: seq<Column>, cols: seq<ColumnDef>)
    ensures Additions(tier, existing, cols).destructive == []
  {
    hide Wanted;
    if cols != [] {
      AdditionsHarmless(tier, existing, cols[..|cols| - 1]);
    }
  }

  // ---------------------------------------------------------------- convergence

  /** The tier's business columns are exactly the model's, with the rendered types. */
  ghost predicate TierConverged(db: Schema, cols: seq<ColumnDef>, tier: Tier) {
    && tier in db
    && (tier != Landing ==>
          && NothingExtra(db[tier].columns, cols)
          && forall c :: c in cols ==>
              Find(db[tier].columns, c.name).Some? && Find(db[tier].columns, c.name).value.pg == Wanted(c))
  }

  ghost predicate Converged(db: Schema, cols: seq<ColumnDef>) {
    forall tier :: TierConverged(db, cols, tier)
  }

  /** No model column is deployed with a type the builders never create. */
  ghost predicate BuilderTypes(db: Schema, cols: seq<ColumnDef>, tier: Tier) {
    tier in db && tier != Landing ==>
      forall c :: c in cols && Find(db[tier].columns, c.name).Some? ==>
          !Find(db[tier].columns, c.name).value.pg.Unmapped?
  }

  lemma RenderedIsMapped(c: ColumnDef)
    ensures !Wanted(c).Unmapped?
  {
  }

  /** A tier's part of the plan is harmless when nothing is extra and nothing narrows. */
  lemma TierHarmless(db: Schema, name: string, cols: seq<ColumnDef>, tier: Tier)
    ensures TierPlan(db, name, cols, tier).destructive == []
       <==> tier in db && tier != Landing ==>
              NothingExtra(db[tier].columns, cols) && forall c :: c in cols ==> !Narrows(db[tier].columns, c)
  {
    if tier in db && tier != Landing {
      hide Wanted, Additions, Retypings, Removed, NothingExtra, Narrows;
      var existing := db[tier].columns;
      AdditionsHarmless(tier, existing, cols);
      NarrowingsNone(tier, existing, cols);
      RemovedNone(tier, cols, existing);
      assert (forall i :: 0 <= i < |cols| ==> !Narrows(existing, cols[i])) <==>
          (forall c :: c in cols ==> !Narrows(existing, c));
    }
  }

  lemma TierConverges(db: Schema, after: Schema, name: string, cols: seq<ColumnDef>, tier: Tier)
    requires ValidNames(cols) && tier in after && after[tier].columns == Target(db, cols, tier)
    ensures TierConverged(after, cols, tier)
       <==> TierPlan(db, name, cols, tier).destructive == [] && BuilderTypes(db, cols, tier)
  {
    hide Target, Wanted, NothingExtra, Narrows, TierPlan, FinalType, Find;
    TierHarmless(db, name, cols, tier);
    if tier != Landing {
      TargetExtras(db, cols, tier);
      forall c | c in cols
        ensures Find(after[tier].columns, c.name).Some?
        ensures Find(after[tier].columns, c.name).value.pg == FinalType(db, tier, c)
      {
        TargetColumn(db, cols, tier, c);
      }
      forall c | c in cols && tier in db
        ensures FinalType(db, tier, c) == Wanted(c)
           <==> !Narrows(db[tier].columns, c)
                && (Find(db[tier].columns, c.name).Some? ==> !Find(db[tier].columns, c.name).value.pg.Unmapped?)
      {
        SettledType(db, tier, c);
      }
      assert tier !in db ==> forall c :: c in cols ==> FinalType(db, tier, c) == Wanted(c) by {
        CreatedFinal(db, cols, tier);
      }
    }
  }

  lemma CreatedFinal(db: Schema, cols: seq<ColumnDef>, tier: Tier)
    ensures tier !in db ==> forall c :: c in cols ==> FinalType(db, tier, c) == Wanted(c)
  {
  }

  lemma SettledType(db: Schema, tier: Tier, c: ColumnDef)
    requires tier in db
    ensures FinalType(db, tier, c) == Wanted(c)
       <==> !Narrows(db[tier].columns, c)
            && (Find(db[tier].columns, c.name).Some? ==> !Find(db[tier].columns, c.name).value.pg.Unmapped?)
  {
    RenderedIsMapped(c);
    hide Wanted, SafeWidening;
  }

  lemma {:induction false} PlanHarmless(db: Schema, name: string, cols: seq<ColumnDef>, n: nat)
    requires n <= |TIERS|
    ensures PlanUpTo(db, name, cols, n).destructive == []
       <==> forall i :: 0 <= i < n ==> TierPlan(db, name, cols, TIERS[i]).destructive == []
  {
    hide TierPlan, Wanted;
    if n > 0 {
      PlanHarmless(db, name, cols, n - 1);
    }
  }

  /**
   Convergence. Executing the statements of an alter plan leaves all four tiers present with exactly
   the model's business columns and rendered types, from any deployed tables, if and only if the plan
   reports nothing destructive and no model column was deployed with a type the builders never create.
   */
  lemma Convergence(db: Schema, name: string, cols: seq<ColumnDef>)
    requires ValidModel(cols)
    ensures ExecuteAll(db, AlterPlan(db, name, cols).statements).Some?
    ensures Converged(ExecuteAll(db, AlterPlan(db, name, cols).statements).value, cols)
       <==> AlterPlan(db, name, cols).destructive == [] && forall tier :: BuilderTypes(db, cols, tier)
  {
    hide TierPlan, Target, ExecuteAll, Wanted, BuilderTypes, TierConverged;
    PlanExecutes(db, name, cols);
    var after := ExecuteAll(db, AlterPlan(db, name, cols).statements).value;
    PlanHarmless(db, name, cols, |TIERS|);
    forall tier
      ensures TierConverged(after, cols, tier)
         <==> TierPlan(db, name, cols, tier).destructive == [] && BuilderTypes(db, cols, tier)
      ensures tier in TIERS
    {
      TierConverges(db, after, name, cols, tier);
      EveryTier(tier);
    }
    assert (forall i :: 0 <= i < |TIERS| ==> TierPlan(db, name, cols, TIERS[i]).destructive == [])
      <==> (forall tier :: tier in TIERS ==> TierPlan(db, name, cols, tier).destructive == []);
  }

  // ---------------------------------------------------------------- planning again

  lemma {:induction false} RemovedConcat(tier: Tier, cols: seq<ColumnDef>, a: seq<Column>, b: seq<Column>)
    ensures Removed(tier, cols, a + b) == Removed(tier, cols, a) + Removed(tier, cols, b)
  {
    if b == [] {
      assert a + b == a;
    } else {
      assert (a + b)[..|a + b| - 1] == a + b[..|b| - 1];
      RemovedConcat(tier, cols, a, b[..|b| - 1]);
    }
  }

  lemma {:induction false} RemovedRenamed(tier: Tier, cols: seq<ColumnDef>, a: seq<Column>, b: seq<Column>)
    requires |a| == |b| && forall i :: 0 <= i < |a| ==> a[i].name == b[i].name
    ensures Removed(tier, cols, a) == Removed(tier, cols, b)
  {
    if a != [] {
      RemovedRenamed(tier, cols, a[..|a| - 1], b[..|b| - 1]);
    }
  }

  lemma RemovedAgain(db: Schema, name: string, cols: seq<ColumnDef>, tier: Tier)
    requires ValidNames(cols) && tier != Landing
    ensures Removed(tier, cols, Target(db, cols, tier))
         == if tier in db then Removed(tier, cols, db[tier].columns) else []
  {
    hide Removed, SystemColumns, Wanted, NothingExtra, BusinessColumns, Retyped, Missing;
    if tier !in db {
      TargetExtras(db, cols, tier);
      RemovedNone(tier, cols, Target(db, cols, tier));
    } else {
      var existing := db[tier].columns;
      var more := Missing(tier, existing, cols);
      MissingInModel(tier, existing, cols);
      RemovedNone(tier, cols, more);
      RemovedConcat(tier, cols, existing, more);
      RetypedNames(existing, cols, existing + more);
      RemovedRenamed(tier, cols, existing + more, Target(db, cols, tier));
    }
  }

  lemma {:induction false} AdditionsAgain(tier: Tier, existing: seq<Column>, cols: seq<ColumnDef>)
    requires forall c :: c in cols ==> Find(existing, c.name).Some?
    ensures Additions(tier, existing, cols) == NOTHING
  {
    if cols != [] {
      AdditionsAgain(tier, existing, cols[..|cols| - 1]);
    }
  }

  /** Planning a column again: nothing left to alter, the same narrowing if there was one. */
  predicate Settled(tier: Tier, before: seq<Column>, after: seq<Column>, c: ColumnDef) {
    Retyping(tier, after, c) == Plan([], [], Retyping(tier, before, c).destructive)
  }

  lemma {:induction false} RetypingsAgain(tier: Tier, before: seq<Column>, after: seq<Column>, cols: seq<ColumnDef>)
    requires forall c :: c in cols ==> Settled(tier, before, after, c)
    ensures Retypings(tier, after, cols) == Plan([], [], Retypings(tier, before, cols).destructive)
  {
    hide Retyping;
    if cols != [] {
      RetypingsAgain(tier, before, after, cols[..|cols| - 1]);
      assert Settled(tier, before, after, cols[|cols| - 1]);
    }
  }

  lemma {:induction false} NothingToRetype(tier: Tier, cols: seq<ColumnDef>)
    ensures Retypings(tier, [], cols) == NOTHING
  {
    if cols != [] {
      NothingToRetype(tier, cols[..|cols| - 1]);
    }
  }

  lemma ColumnSettled(db: Schema, cols: seq<ColumnDef>, tier: Tier, c: ColumnDef)
    requires ValidNames(cols) && c in cols && tier != Landing
    ensures Settled(tier, if tier in db then db[tier].columns else [], Target(db, cols, tier), c)
  {
    hide Target, Wanted, LogicalOf, SafeWidening;
    TargetColumn(db, cols, tier, c);
  }

  lemma TierAgain(db: Schema, after: Schema, name: string, cols: seq<ColumnDef>, tier: Tier)
    requires ValidNames(cols) && tier in after && after[tier].columns == Target(db, cols, tier)
    ensures TierPlan(after, name, cols, tier)
         == Plan(if tier == Live then ColumnIndexes(name, cols) else [], [], TierPlan(db, name, cols, tier).destructive)
  {
    if tier != Landing {
      hide Target, Removed, Additions, Retypings, Wanted, Settled, ColumnIndexes;
      var before := if tier in db then db[tier].columns else [];
      forall c | c in cols
        ensures Settled(tier, before, after[tier].columns, c) && Find(after[tier].columns, c.name).Some?
      {
        ColumnSettled(db, cols, tier, c);
        TargetColumn(db, cols, tier, c);
      }
      RetypingsAgain(tier, before, after[tier].columns, cols);
      AdditionsAgain(tier, after[tier].columns, cols);
      RemovedAgain(db, name, cols, tier);
      if tier in db {
        AdditionsHarmless(tier, before, cols);
      } else {
        NothingToRetype(tier, cols);
      }
    }
  }

  lemma {:induction false} PlanAgainUpTo(db: Schema, after: Schema, name: string, cols: seq<ColumnDef>, n: nat)
    requires ValidNames(cols) && n <= |TIERS|
    requires forall tier :: tier in after && after[tier].columns == Target(db, cols, tier)
    ensures PlanUpTo(after, name, cols, n)
         == Plan(if n >= 3 then ColumnIndexes(name, cols) else [], [], PlanUpTo(db, name, cols, n).destructive)
  {
    hide TierPlan, Target, Wanted, ColumnIndexes;
    if n > 0 {
      PlanAgainUpTo(db, after, name, cols, n - 1);
      TierAgain(db, after, name, cols, TIERS[n - 1]);
      assert TIERS[n - 1] == Live <==> n == 3;
    }
  }

  /**
   Planning again after executing a plan finds nothing to create, add or alter, only index statements
   that have no effect; and it reports exactly the destructive changes the first plan reported. So a
   plan without any converges, and a destructive change, even confirmed, is never carried out.
   */
  lemma PlanAgain(db: Schema, name: string, cols: seq<ColumnDef>)
    requires ValidNames(cols)
    ensures var plan := AlterPlan(db, name, cols);
      && ExecuteAll(db, plan.statements).Some?
      && var after := ExecuteAll(db, plan.statements).value;
      AlterPlan(after, name, cols) == Plan(ColumnIndexes(name, cols), [], plan.destructive)
  {
    hide PlanUpTo, Target, ExecuteAll, Wanted, ColumnIndexes;
    PlanExecutes(db, name, cols);
    PlanAgainUpTo(db, ExecuteAll(db, AlterPlan(db, name, cols).statements).value, name, cols, |TIERS|);
  }

  /**
   Creating an entity is migrating from nothing, but for two warnings of its own; so a first publish
   converges too.
   */
  lemma CreateIsMigrationFromNothing(name: string, cols: seq<ColumnDef>, matchKey: bool, businessKey: bool)
    requires ValidModel(cols)
    ensures CreatePlan(name, cols, matchKey, businessKey)
         == AlterPlan(map[], name, cols).Then(Plan([], KeyWarnings(matchKey, businessKey), []))
    ensures var after := ExecuteAll(map[], CreatePlan(name, cols, matchKey, businessKey).statements);
      after.Some? && Converged(after.value, cols)
  {
    hide Creation, Wanted, ExecuteAll, Converged, BuilderTypes;
    var db: Schema := map[];
    assert PlanUpTo(db, name, cols, 0) == NOTHING;
    assert PlanUpTo(db, name, cols, 1).statements == Creation(Landing, name, cols);
    assert PlanUpTo(db, name, cols, 2).statements == Creation(Landing, name, cols) + Creation(Staging, name, cols);
    assert PlanUpTo(db, name, cols, 3).statements
         == Creation(Landing, name, cols) + Creation(Staging, name, cols) + Creation(Live, name, cols);
    assert PlanUpTo(db, name, cols, 4) == Plan(CreatePlan(name, cols, matchKey, businessKey).statements, [], []);
    forall tier ensures BuilderTypes(db, cols, tier) {
      NothingDeployed(db, cols, tier);
    }
    Convergence(db, name, cols);
  }

  lemma NothingDeployed(db: Schema, cols: seq<ColumnDef>, tier: Tier)
    requires tier !in db
    ensures BuilderTypes(db, cols, tier)
  {
  }

  // ---------------------------------------------------------------- any sequence of publishes

  datatype Release = Release(cols: seq<ColumnDef>, confirmed: bool)

  /** The publish gets as far as executing its plan. */
  predicate Executes(db: Schema, name: string, r: Release) {
    Plannable(db, r.cols) && (AlterPlan(db, name, r.cols).destructive == [] || r.confirmed)
  }

  function Publish(db: Schema, name: string, r: Release): Schema {
    if Plannable(db, r.cols) then ApplyPlan(db, AlterPlan(db, name, r.cols), r.confirmed) else db
  }

  function Published(db: Schema, name: string, releases: seq<Release>): Schema {
    if releases == [] then db
    else Publish(Published(db, name, releases[..|releases| - 1]), name, releases[|releases| - 1])
  }

  predicate Has(db: Schema, tier: Tier, column: string) {
    tier in db && Find(db[tier].columns, column).Some?
  }

  function TypeOf(db: Schema, tier: Tier, column: string): PgType
    requires Has(db, tier, column)
  {
    Find(db[tier].columns, column).value.pg
  }

  /** What a column could hold it still can. */
  predicate Keeps(db: Schema, after: Schema, tier: Tier, column: string, v: Value) {
    Has(db, tier, column) && Fits(v, TypeOf(db, tier, column)) ==>
      Has(after, tier, column) && Fits(v, TypeOf(after, tier, column))
  }

  /** If the publish alters the column, then not in one of the ways the planner fails to notice. */
  predicate Careful(db: Schema, name: string, r: Release, tier: Tier, column: string) {
    Executes(db, name, r) && Has(db, tier, column) && tier != Landing ==>
      forall c :: c in r.cols && c.name == column && Alters(db[tier].columns, c)
        ==> !Loses(TypeOf(db, tier, column), c.dataType, c.length, Wanted(c))
  }

  lemma KeepsAll(db: Schema, after: Schema, tier: Tier, column: string)
    requires Has(db, tier, column) && Has(after, tier, column)
    ensures (forall v :: Keeps(db, after, tier, column, v))
       <==> (forall v :: Fits(v, TypeOf(db, tier, column)) ==> Fits(v, TypeOf(after, tier, column)))
  {
    hide Has, Fits, TypeOf;
    if forall v :: Keeps(db, after, tier, column, v) {
      forall v | Fits(v, TypeOf(db, tier, column)) ensures Fits(v, TypeOf(after, tier, column)) {
        assert Keeps(db, after, tier, column, v);
      }
    }
  }

  /** A publish that does not execute changes nothing; one that does brings every tier to its target. */
  lemma PublishTargets(db: Schema, name: string, r: Release)
    requires ValidNames(r.cols)
    ensures !Executes(db, name, r) ==> Publish(db, name, r) == db
    ensures Executes(db, name, r)
       ==> forall tier :: tier in Publish(db, name, r) && Publish(db, name, r)[tier].columns == Target(db, r.cols, tier)
  {
    hide Wanted, Target, AlterPlan, ExecuteAll, TierRenders;
    if Executes(db, name, r) {
      PlanExecutes(db, name, r.cols);
    }
  }

  /** The type a deployed column has in the target. */
  lemma TargetType(db: Schema, cols: seq<ColumnDef>, tier: Tier, column: string)
    requires ValidNames(cols) && Has(db, tier, column)
    ensures var found := Find(Target(db, cols, tier), column);
      && found.Some?
      && (tier != Landing ==> forall c :: c in cols && c.name == column ==>
            found.value.pg == if Alters(db[tier].columns, c) then Wanted(c) else TypeOf(db, tier, column))
      && (tier == Landing || !InModel(cols, column) ==> found.value.pg == TypeOf(db, tier, column))
  {
    hide Wanted, Alters;
    if tier != Landing {
      var existing := db[tier].columns;
      var more := Missing(tier, existing, cols);
      FindConcat(existing, more, column);
      FindRetyped(existing, cols, existing + more, column);
      NewTypeIs(existing, cols, column, TypeOf(db, tier, column));
    }
  }

  /** No publish, confirmed or not, ever drops a column. */
  lemma PublishDropsNothing(db: Schema, name: string, r: Release, tier: Tier, column: string)
    requires ValidNames(r.cols) && Has(db, tier, column)
    ensures Has(Publish(db, name, r), tier, column)
  {
    hide Publish, Executes, Target, ValidNames;
    PublishTargets(db, name, r);
    if Executes(db, name, r) {
      TargetType(db, r.cols, tier, column);
    }
  }

  /**
   A publish keeps everything a column could hold exactly when it is careful about that column: it
   does not execute, leaves the column's type alone, or changes it to one that loses nothing.
   */
  lemma PublishKeeps(db: Schema, name: string, r: Release, tier: Tier, column: string)
    requires ValidNames(r.cols) && Has(db, tier, column)
    requires TypeOf(db, tier, column).Varchar? ==> TypeOf(db, tier, column).n >= 1
    ensures (forall v :: Keeps(db, Publish(db, name, r), tier, column, v)) <==> Careful(db, name, r, tier, column)
  {
    hide Publish, Executes, Target, Fits, Wanted, Loses;
    PublishTargets(db, name, r);
    if Executes(db, name, r) {
      TargetType(db, r.cols, tier, column);
      var was, after := TypeOf(db, tier, column), Publish(db, name, r);
      assert tier in after && after[tier].columns == Target(db, r.cols, tier);
      KeepsAll(db, after, tier, column);
      if c :| c in r.cols && c.name == column && tier != Landing {
        OnlyOne(r.cols, c);
        if Alters(db[tier].columns, c) {
          AlteredRenders(db, name, r, tier, c);
          AlteredType(was, c);
        }
      }
    }
  }

  lemma OnlyOne(cols: seq<ColumnDef>, c: ColumnDef)
    requires ValidNames(cols) && c in cols
    ensures InModel(cols, c.name) && forall d :: d in cols && d.name == c.name ==> d == c
  {
    var i :| 0 <= i < |cols| && cols[i] == c;
  }

  /** A plan that alters a column has rendered its type. */
  lemma AlteredRenders(db: Schema, name: string, r: Release, tier: Tier, c: ColumnDef)
    requires Executes(db, name, r) && tier in db && tier != Landing && c in r.cols && Alters(db[tier].columns, c)
    ensures Rendered(c).Some?
  {
    hide AlterPlan, Rendered, SafeWidening;
    assert TierRenders(db, r.cols, tier);
  }

  lemma AlteredType(was: PgType, c: ColumnDef)
    requires Rendered(c).Some? && LogicalOf(was).Some?
    requires SafeWidening(LogicalOf(was).value, LengthOf(was), c.dataType, c.length)
    requires was.Varchar? ==> was.n >= 1
    ensures (forall v :: Fits(v, was) ==> Fits(v, Wanted(c))) <==> !Loses(was, c.dataType, c.length, Wanted(c))
  {
    SafeChangeKeeps(was, c.dataType, c.length, c.precision, c.scale);
  }

  /** Over any sequence of publishes, confirmed or not, no deployed column is ever dropped. */
  lemma {:induction false} NothingDropped(db: Schema, name: string, releases: seq<Release>, n: nat, tier: Tier,
                                          column: string)
    requires n <= |releases| && forall r :: r in releases ==> ValidNames(r.cols)
    requires Has(Published(db, name, releases[..n]), tier, column)
    ensures Has(Published(db, name, releases), tier, column)
    decreases |releases|
  {
    hide Publish, Has, ValidNames;
    if n == |releases| {
      assert releases[..n] == releases;
    } else {
      var before := releases[..|releases| - 1];
      assert before[..n] == releases[..n];
      NothingDropped(db, name, before, n, tier, column);
      PublishDropsNothing(Published(db, name, before), name, releases[|releases| - 1], tier, column);
    }
  }

  /**
   Over any sequence of publishes, whatever value a column could hold at one stage it can hold at the
   end, if each publish in between was careful about that one column.
   */
  lemma {:induction false} NothingIsLost(db: Schema, name: string, releases: seq<Release>, n: nat, tier: Tier,
                                         column: string, v: Value)
    requires n <= |releases| && forall r :: r in releases ==> ValidNames(r.cols)
    requires forall i :: n <= i < |releases| ==>
        Careful(Published(db, name, releases[..i]), name, releases[i], tier, column)
    ensures Keeps(Published(db, name, releases[..n]), Published(db, name, releases), tier, column, v)
    decreases |releases|
  {
    hide Publish, Fits, Has, ValidNames, Careful;
    if n == |releases| {
      assert releases[..n] == releases;
    } else {
      var before := releases[..|releases| - 1];
      assert before[..n] == releases[..n];
      assert forall i :: n <= i < |before| ==> before[..i] == releases[..i];
      NothingIsLost(db, name, before, n, tier, column, v);
      CarefulKeeps(Published(db, name, before), name, releases[|releases| - 1], tier, column, v);
    }
  }

  /** Wherever the release has the column, it has a plain type. */
  predicate PlainIn(r: Release, column: string) {
    forall c :: c in r.cols && c.name == column ==> Plain(c.dataType, c.length, c.precision)
  }

  lemma PlainIsCareful(db: Schema, name: string, r: Release, tier: Tier, column: string)
    requires PlainIn(r, column)
    ensures Careful(db, name, r, tier, column)
  {
    hide Loses, AlterPlan, Plain, SafeWidening, LogicalOf, Rendered;
    if Executes(db, name, r) && Has(db, tier, column) && tier != Landing {
      forall c | c in r.cols && c.name == column && Alters(db[tier].columns, c)
        ensures !Loses(TypeOf(db, tier, column), c.dataType, c.length, Wanted(c))
      {
        AlteredRenders(db, name, r, tier, c);
        PlainAltered(TypeOf(db, tier, column), c);
      }
    }
  }

  lemma PlainAltered(was: PgType, c: ColumnDef)
    requires LogicalOf(was).Some? && Rendered(c).Some? && Plain(c.dataType, c.length, c.precision)
    requires SafeWidening(LogicalOf(was).value, LengthOf(was), c.dataType, c.length)
    ensures !Loses(was, c.dataType, c.length, Wanted(c))
  {
    hide Loses, Plain, SafeWidening, LogicalOf, LengthOf;
    PlainChangeKeeps(was, c.dataType, c.length, c.precision, c.scale);
  }

  /**
   Over any sequence of publishes in which the column only ever has plain types, with no default
   length, no sized decimal and no float, nothing it could hold at one stage is lost, whatever the
   changes: those the planner accepts keep it, and the others it does not carry out.
   */
  lemma PlainLosesNothing(db: Schema, name: string, releases: seq<Release>, n: nat, tier: Tier, column: string,
                          v: Value)
    requires n <= |releases| && forall r :: r in releases ==> ValidNames(r.cols)
    requires forall i :: n <= i < |releases| ==> PlainIn(releases[i], column)
    ensures Keeps(Published(db, name, releases[..n]), Published(db, name, releases), tier, column, v)
  {
    hide Published, Careful, PlainIn, ValidNames, Keeps;
    forall i | n <= i < |releases|
      ensures Careful(Published(db, name, releases[..i]), name, releases[i], tier, column)
    {
      PlainIsCareful(Published(db, name, releases[..i]), name, releases[i], tier, column);
    }
    NothingIsLost(db, name, releases, n, tier, column, v);
  }

  lemma CarefulKeeps(db: Schema, name: string, r: Release, tier: Tier, column: string, v: Value)
    requires ValidNames(r.cols) && Careful(db, name, r, tier, column)
    ensures Keeps(db, Publish(db, name, r), tier, column, v)
  {
    hide Publish, Executes, Target, Fits, Wanted, Loses;
    PublishTargets(db, name, r);
    if Has(db, tier, column) && Executes(db, name, r) && Fits(v, TypeOf(db, tier, column)) {
      TargetType(db, r.cols, tier, column);
      if c :| c in r.cols && c.name == column && tier != Landing && Alters(db[tier].columns, c) {
        CarefulChange(TypeOf(db, tier, column), c, v);
      }
    }
  }

  lemma CarefulChange(was: PgType, c: ColumnDef, v: Value)
    requires LogicalOf(was).Some? && SafeWidening(LogicalOf(was).value, LengthOf(was), c.dataType, c.length)
    requires !Loses(was, c.dataType, c.length, Wanted(c)) && Fits(v, was)
    ensures Fits(v, Wanted(c))
  {
    hide Within, Narrower;
    NumbersKept(was, Wanted(c));
  }
}

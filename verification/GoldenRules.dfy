/**
 The constraints of the golden tier (app/services/ddl.py `build_live_ddl`) against what
 validation lets through: which rows keep them, and which approvals the database can refuse.
 */
module GoldenRules {
  import opened Values
  import opened Strings
  import opened TypeSystem
  import opened EntityModel
  import opened Validation
  import opened Ledger
  import opened Matching
  import opened Pipeline
  import opened Conservation

  // ---------------------------------------------------------------- the golden tier

  /** Every golden row fits its columns, and no two active rows share a unique value. */
  ghost predicate GoldenSound(e: Entity, live: map<RecordId, GoldenRow>) {
    && (forall id :: id in live ==> ColumnsFit(e, live[id].values))
    && (forall id, other :: id in live && other in live && id != other ==> !Clashes(e, live[id], live[other]))
  }

  lemma ClashSymmetric(e: Entity, g: GoldenRow, h: GoldenRow)
    ensures Clashes(e, g, h) <==> Clashes(e, h, g)
  {
    if Clashes(e, g, h) {
      var a :| a in e.attributes && a.unique && !At(g.values, a.name).Null?
          && At(g.values, a.name) == At(h.values, a.name);
      assert At(h.values, a.name) == At(g.values, a.name);
    }
    if Clashes(e, h, g) {
      var a :| a in e.attributes && a.unique && !At(h.values, a.name).Null?
          && At(h.values, a.name) == At(g.values, a.name);
      assert At(g.values, a.name) == At(h.values, a.name);
    }
  }

  lemma AcceptablePutIsSound(e: Entity, live: map<RecordId, GoldenRow>, id: RecordId, row: GoldenRow)
    requires GoldenSound(e, live) && Acceptable(e, live, id, row)
    ensures GoldenSound(e, live[id := row])
  {
    hide Clashes, ColumnsFit;
    var after := live[id := row];
    forall a, b | a in after && b in after && a != b
      ensures !Clashes(e, after[a], after[b])
    {
      if b == id {
        ClashSymmetric(e, row, live[a]);
      }
    }
  }

  lemma RetiredPutIsSound(e: Entity, live: map<RecordId, GoldenRow>, id: RecordId, at: Time, actor: string)
    requires GoldenSound(e, live) && id in live
    ensures GoldenSound(e, live[id := RetiredRow(live[id], at, actor)])
  {
  }

  lemma GoldenSoundStep(e: Entity, s: State, ev: Event)
    requires GoldenSound(e, s.book.live)
    ensures GoldenSound(e, Next(e, s, ev).book.live)
  {
    hide Validation.Validated, Acceptable, SetsOf, PromoteRows, Stageable, GoldenSound, AmendedRow, RetiredRow,
      FreshRow;
    if ev.step.DoApprove? {
      var step := ev.step;
      var v, b := ApproveVerdict(e, s, ev.at, step.sid, step.actor, step.sod, step.newId), s.book;
      if v.Granted? {
        match v.change {
          case Insert(id, _, _, _, _) => AcceptablePutIsSound(e, b.live, id, FreshRow(ev.at, v.change));
          case Amend(id, sets, actor, sid) =>
            if sets == map[] {
              UnchangedPut(b, id, ev.at, actor, sid);
            } else {
              AcceptablePutIsSound(e, b.live, id, AmendedRow(b.live[id], ev.at, sets, actor, sid));
            }
          case SoftDelete(id, actor) => RetiredPutIsSound(e, b.live, id, ev.at, actor);
          case HardDelete(id, actor) => RemovalIsSound(e, b.live, id);
        }
      }
    }
  }

  lemma UnchangedPut(b: Book, id: RecordId, at: Time, actor: string, sid: nat)
    requires id in b.live
    ensures b.live[id := AmendedRow(b.live[id], at, map[], actor, sid)] == b.live
  {
  }

  lemma RemovalIsSound(e: Entity, live: map<RecordId, GoldenRow>, id: RecordId)
    requires GoldenSound(e, live)
    ensures GoldenSound(e, live - {id})
  {
  }

  /** In every reachable state the golden tier satisfies NOT NULL, column sizes and the unique indexes. */
  lemma {:induction false} GoldenAlwaysSound(e: Entity, events: seq<Event>)
    ensures GoldenSound(e, Run(e, events).book.live)
  {
    if events != [] {
      hide Next, GoldenSound;
      GoldenAlwaysSound(e, events[..|events| - 1]);
      GoldenSoundStep(e, Run(e, events[..|events| - 1]), events[|events| - 1]);
    } else {
      assert GoldenSound(e, EMPTY.live);
    }
  }

  /**
   The same, column by column: required columns hold a value, texts and numbers fit their columns,
   and two active records never share a value of a unique attribute.
   */
  lemma GoldenMeans(e: Entity, events: seq<Event>, id: RecordId, a: Attribute)
    requires id in Run(e, events).book.live && a in e.attributes
    ensures var live := Run(e, events).book.live;
      var v := At(live[id].values, a.name);
      && (a.required ==> v != Null)
      && (v.Text? && ColumnType(a).Some? && ColumnType(a).value.Varchar? ==> |v.s| <= ColumnType(a).value.n)
      && (v.Int? && a.dataType.IntegerT? ==> -0x8000_0000 <= v.i < 0x8000_0000)
      && (v.Int? && a.dataType.BigintT? ==> -0x8000_0000_0000_0000 <= v.i < 0x8000_0000_0000_0000)
      && (a.unique && v != Null && !live[id].deleted ==>
            forall other ::
              other in live && other != id && !live[other].deleted ==> At(live[other].values, a.name) != v)
  {
    hide Run;
    GoldenAlwaysSound(e, events);
    var live := Run(e, events).book.live;
    assert ColumnsFit(e, live[id].values);
    forall other | other in live && other != id ensures !Clashes(e, live[id], live[other]) {
    }
  }

  // ---------------------------------------------------------------- staged rows

  /** Validation has spoken about every column: the write was not partial, or a steward has edited it. */
  predicate Full(r: StagingRow) {
    !Partial(r.op) || r.editedBy.Some?
  }

  predicate RequiredPresent(e: Entity, r: StagingRow, names: set<string>) {
    forall a :: a in e.attributes && a.name in names && a.required ==> !At(r.values, a.name).Null?
  }

  ghost predicate RowSound(e: Entity, r: StagingRow) {
    && r.values.Keys == Names(e.attributes) && r.supplied <= Names(e.attributes)
    && Stageable(e, r.values)
    && (r.isValid ==> RequiredPresent(e, r, if Full(r) then Names(e.attributes) else r.supplied))
  }

  /** A staging column holds its validated value, or the DDL default if validation left it out. */
  lemma {:induction false} FilledColumn(attrs: seq<Attribute>, values: Row, a: Attribute)
    requires forall i, j :: 0 <= i < j < |attrs| ==> attrs[i].name != attrs[j].name
    requires a in attrs
    ensures a.name in Filled(attrs, values)
    ensures Filled(attrs, values)[a.name] == if a.name in values then values[a.name] else a.ddlDefault
  {
    var n := |attrs| - 1;
    if a != attrs[n] {
      var i :| 0 <= i < |attrs| && attrs[i] == a;
      assert attrs[..n][i] == a;
      FilledColumn(attrs[..n], values, a);
    }
  }

  lemma {:induction false} FilledKeys(attrs: seq<Attribute>, values: Row)
    ensures Filled(attrs, values).Keys == Names(attrs)
  {
    if attrs != [] {
      var n := |attrs| - 1;
      FilledKeys(attrs[..n], values);
      assert attrs == attrs[..n] + [attrs[n]];
      assert Names(attrs) == Names(attrs[..n]) + {attrs[n].name};
    }
  }

  /** A required attribute without faults is not null. */
  lemma RequiredHeld(p: Platform, a: Attribute, payload: Row)
    requires a.required && Faults(p, a, payload) == {}
    ensures !Stored(p, a, payload).Null?
  {
    hide Stored, Read;
    assert Fault(a.name, Required) !in Faults(p, a, payload) && Fault(a.name, TypeMismatch) !in Faults(p, a, payload);
  }

  lemma AssessedSound(e: Entity, live: map<RecordId, GoldenRow>, now: Time, r: LandingRow, i: nat, batch: nat,
                      pick: Chooser)
    requires WellFormed(e) && Assess(e, live, now, r, i, batch, pick).Stage?
    ensures RowSound(e, Assess(e, live, now, r, i, batch, pick).row)
  {
    hide Resolve, Stageable, MatchKey, Validated, Filled, Faults, Stored;
    var row := Assess(e, live, now, r, i, batch, pick).row;
    var outcome := Validated(e, r.payload, Partial(r.op));
    FilledKeys(e.attributes, outcome.values);
    if row.isValid {
      assert outcome.faults == {};
      ValidatedClean(e, r.payload, Partial(r.op));
      forall a | a in e.attributes && a.required && (!Partial(r.op) || a.name in row.supplied)
        ensures !At(row.values, a.name).Null?
      {
        assert Sound(e, a, r.payload, Partial(r.op));
        ValidatedColumn(e, r.payload, Partial(r.op), a);
        FilledColumn(e.attributes, outcome.values, a);
        RequiredHeld(e.platform, a, r.payload);
      }
    }
  }

  /** Once every column is present, a faultless record has every required column. */
  lemma WholeRecordRequired(e: Entity, payload: Row, partial: bool, a: Attribute)
    requires WellFormed(e) && Names(e.attributes) <= payload.Keys && a in e.attributes && a.required
    requires Validated(e, payload, partial).faults == {}
    ensures !At(Validated(e, payload, partial).values, a.name).Null?
  {
    hide Validated, Faults, Stored;
    ValidatedClean(e, payload, partial);
    assert Sound(e, a, payload, partial);
    ValidatedColumn(e, payload, partial, a);
    RequiredHeld(e.platform, a, payload);
  }

  lemma EditedSound(e: Entity, r: StagingRow, now: Time, updates: Row, actor: string)
    requires WellFormed(e) && RowSound(e, r) && updates.Keys <= Names(e.attributes)
    requires Stageable(e, EditedRow(e, r, now, updates, actor).values)
    ensures RowSound(e, EditedRow(e, r, now, updates, actor))
  {
    hide Stageable, MatchKey, Validated, Sound;
    var merged := r.values + updates;
    var outcome := Validated(e, merged, Partial(r.op));
    ValidatedClean(e, merged, Partial(r.op));
    if outcome.faults == {} {
      forall a | a in e.attributes && a.required
        ensures !At(r.values + outcome.values, a.name).Null?
      {
        WholeRecordRequired(e, merged, Partial(r.op), a);
      }
    }
  }

  ghost predicate RowsSound(e: Entity, staging: seq<StagingRow>) {
    forall i :: 0 <= i < |staging| ==> RowSound(e, staging[i])
  }

  lemma RowsSoundStep(e: Entity, s: State, ev: Event)
    requires WellFormed(e) && RowsSound(e, s.staging)
    ensures RowsSound(e, Next(e, s, ev).staging)
  {
    hide Validated, ChangeFor, Apply, Stageable, PromoteRows, Assess, EditedRow;
    var s' := Next(e, s, ev);
    match ev.step {
      case DoPromote(ids, limit, actor, pick) =>
        var rows := Take(PendingRows(s.landing, ids), limit);
        PromotionStages(e, s, ev.at, rows, |s.batches|, pick);
        forall i | |s.staging| <= i < |s'.staging| ensures RowSound(e, s'.staging[i]) {
          var l := s'.staging[i].landingId;
          AssessedSound(e, s.book.live, ev.at, s.landing[l], l, |s.batches|, pick);
        }
      case DoEdit(sid, updates, actor) =>
        if EditVerdict(e, s, ev.at, sid, updates, actor).Edited? {
          EditedSound(e, s.staging[sid], ev.at, updates, actor);
        }
      case _ =>
    }
  }

  lemma {:induction false} StagedRowsSound(e: Entity, events: seq<Event>)
    requires WellFormed(e)
    ensures RowsSound(e, Run(e, events).staging)
  {
    if events != [] {
      hide Next;
      StagedRowsSound(e, events[..|events| - 1]);
      RowsSoundStep(e, Run(e, events[..|events| - 1]), events[|events| - 1]);
    }
  }

  // ---------------------------------------------------------------- what the database can still refuse

  ghost predicate ClashesWithAnother(e: Entity, live: map<RecordId, GoldenRow>, id: RecordId, row: GoldenRow) {
    exists other :: other in live && other != id && Clashes(e, row, live[other])
  }

  lemma InsertFits(e: Entity, r: StagingRow)
    requires RowSound(e, r) && r.isValid && Full(r)
    ensures ColumnsFit(e, r.values)
  {
    hide Storable;
  }

  lemma AmendFits(e: Entity, r: StagingRow, row: GoldenRow)
    requires RowSound(e, r) && r.isValid && ColumnsFit(e, row.values)
    ensures ColumnsFit(e, row.values + SetsOf(r))
  {
    hide Storable;
    forall a | a in e.attributes
      ensures a.required ==> !At(row.values + SetsOf(r), a.name).Null?
      ensures Storable(a, At(row.values + SetsOf(r), a.name))
    {
      assert Storable(a, At(r.values, a.name)) && Storable(a, At(row.values, a.name));
    }
  }

  /**
   Validation leaves the database one reason to refuse. In every reachable state, approving a
   valid row whose columns validation has all seen, or any valid row that updates a golden
   record, never fails NOT NULL or a column size: only a unique value already taken.
   */
  lemma OnlyUniquenessCanFail(e: Entity, events: seq<Event>, at: Time, sid: nat, actor: string, sod: bool,
                              newId: RecordId)
    requires WellFormed(e) && sid < |Run(e, events).staging|
    requires var r := Run(e, events).staging[sid]; !r.op.OpDelete? && (Full(r) || r.target.Some?)
    requires newId !in Known(Run(e, events).book)
    requires ApproveVerdict(e, Run(e, events), at, sid, actor, sod, newId) == Violated
    ensures var s := Run(e, events);
      var r, live := s.staging[sid], s.book.live;
      if r.target.Some? then
        r.target.value in live
        && ClashesWithAnother(e, live, r.target.value, AmendedRow(live[r.target.value], at, SetsOf(r), actor, sid))
      else ClashesWithAnother(e, live, newId, FreshRow(at, Insert(newId, r.values, actor, sid, r.source)))
  {
    hide ColumnsFit, RowSound, Clashes, GoldenSound, Run, SetsOf, Full;
    var s := Run(e, events);
    var r, live := s.staging[sid], s.book.live;
    StagedRowsSound(e, events);
    GoldenAlwaysSound(e, events);
    assert RowSound(e, r);
    if r.target.Some? {
      FitsAlone(e, live, r.target.value);
      AmendFits(e, r, live[r.target.value]);
    } else {
      assert Full(r);
      InsertFits(e, r);
    }
  }

  lemma FitsAlone(e: Entity, live: map<RecordId, GoldenRow>, id: RecordId)
    requires GoldenSound(e, live) && id in live
    ensures ColumnsFit(e, live[id].values)
  {
  }

  /** An approved row that updates a golden record never sets a required column to null. */
  lemma UpdatesKeepRequired(e: Entity, events: seq<Event>, sid: nat, a: Attribute)
    requires WellFormed(e) && sid < |Run(e, events).staging| && a in e.attributes && a.required
    requires var r := Run(e, events).staging[sid]; r.isValid && a.name in SetsOf(r)
    ensures !SetsOf(Run(e, events).staging[sid])[a.name].Null?
  {
    StagedRowsSound(e, events);
    assert RowSound(e, Run(e, events).staging[sid]);
  }

  /**
   The one gap: an unedited UPDATE that matched no golden record is approved as the creation of
   one, from columns validation never asked for. It goes through exactly when the required
   columns it left out have a DDL default and no unique value is taken.
   */
  lemma UnmatchedUpdateCreates(e: Entity, events: seq<Event>, at: Time, sid: nat, actor: string, sod: bool,
                               newId: RecordId)
    requires WellFormed(e) && sid < |Run(e, events).staging|
    requires var r := Run(e, events).staging[sid];
      r.op.OpUpdate? && r.target.None? && r.isValid && r.status == PendingReview && !(sod && BySelf(r, actor))
    requires newId !in Known(Run(e, events).book)
    ensures var s := Run(e, events);
      var r, v := s.staging[sid], ApproveVerdict(e, s, at, sid, actor, sod, newId);
      var change := Insert(newId, r.values, actor, sid, r.source);
      v == if !RequiredPresent(e, r, Names(e.attributes)) then Violated
           else if ClashesWithAnother(e, s.book.live, newId, FreshRow(at, change)) then Violated
           else Granted(change)
  {
    hide Storable, Clashes, Run;
    StagedRowsSound(e, events);
    var r := Run(e, events).staging[sid];
    assert RowSound(e, r);
    assert ColumnsFit(e, r.values) <==> RequiredPresent(e, r, Names(e.attributes));
  }

  // ---------------------------------------------------------------- what staging can refuse

  /** The column renders, and if it is sized, the length limit that validation goes by is no larger. */
  predicate Bounded(a: Attribute) {
    && ColumnType(a).Some?
    && (ColumnType(a).value.Varchar? ==> LengthLimit(a).Some? && LengthLimit(a).value <= ColumnType(a).value.n)
  }

  predicate WithinLimit(a: Attribute, s: string) {
    LengthLimit(a).Some? ==> |s| <= LengthLimit(a).value
  }

  /** The length limit keeps all texts within the column exactly under that condition. */
  lemma BoundedIff(a: Attribute)
    requires ColumnType(a).Some?
    ensures (forall s :: WithinLimit(a, s) ==> Storable(a, Text(s))) <==> Bounded(a)
  {
    var pg, limit := ColumnType(a).value, LengthLimit(a);
    if pg.Varchar? && !Bounded(a) {
      var s := Spaces(if limit.Some? then limit.value else pg.n + 1);
      assert WithinLimit(a, s) && !Storable(a, Text(s));
    }
  }

  /** Types the model does not look into never come back as text or whole numbers. */
  ghost predicate ConvertsOpaquely(p: Platform) {
    forall v, t :: p.convert(v, t).Good? ==> p.convert(v, t).value.Opaque? || p.convert(v, t).value.Null?
  }

  /** What coercion produces is of the column's kind, and whole numbers are in range. */
  lemma CoercedKind(p: Platform, v: Value, t: LogicalType)
    requires ConvertsOpaquely(p) && Coerce(p, v, t).Good?
    ensures var c := Coerce(p, v, t).value;
      match t
      case StringT | TextT | UrlT | EnumT | EmailT => c.Null? || c.Text?
      case IntegerT => c.Null? || (c.Int? && -MAX_INT <= c.i <= MAX_INT)
      case BigintT => c.Null? || (c.Int? && -MAX_BIGINT <= c.i <= MAX_BIGINT)
      case BooleanT => c.Null? || c.Bool?
      case _ => c.Null? || c.Opaque?
  {
    hide ParseInt, PyText, Blank, Strip, Recase;
  }

  lemma StoredKind(p: Platform, a: Attribute, payload: Row)
    requires ConvertsOpaquely(p) && Read(p, a, payload).Good?
    ensures var c := Stored(p, a, payload);
      match a.dataType
      case StringT | TextT | UrlT | EnumT | EmailT => c.Null? || c.Text?
      case IntegerT => c.Null? || (c.Int? && -MAX_INT <= c.i <= MAX_INT)
      case BigintT => c.Null? || (c.Int? && -MAX_BIGINT <= c.i <= MAX_BIGINT)
      case BooleanT => c.Null? || c.Bool?
      case _ => c.Null? || c.Opaque?
  {
    hide Coerce, Normalization.Normalized, Strip;
    CoercedKind(p, Normalization.Normalized(At(payload, a.name), a.rules), a.dataType);
    if a.fallback.Some? && Coerce(p, Text(a.fallback.value), a.dataType).Good? {
      CoercedKind(p, Text(a.fallback.value), a.dataType);
    }
  }

  /** A value without faults fits the column it is meant for. */
  lemma FaultlessFits(p: Platform, a: Attribute, payload: Row)
    requires ConvertsOpaquely(p) && Bounded(a) && Faults(p, a, payload) == {}
    ensures Storable(a, Stored(p, a, payload))
  {
    hide Stored, Read, RangeFaults, DoubleHolds;
    var v := Stored(p, a, payload);
    assert Fault(a.name, TypeMismatch) !in Faults(p, a, payload);
    StoredKind(p, a, payload);
    if v.Text? {
      assert Fault(a.name, MaxLength) !in TextFaults(p, a, v.s);
    }
  }

  /** The column a staged write would store for an attribute. */
  function StagedColumn(e: Entity, r: LandingRow, a: Attribute): Value {
    if Looked(a, r.payload, Partial(r.op)) then Stored(e.platform, a, r.payload) else a.ddlDefault
  }

  /** A landed write reaches staging exactly when its explicit id can be cast and its columns fit, valid or not. */
  lemma StagedIff(e: Entity, live: map<RecordId, GoldenRow>, now: Time, r: LandingRow, i: nat, batch: nat,
                  pick: Chooser)
    requires WellFormed(e)
    ensures Assess(e, live, now, r, i, batch, pick).Stage?
       <==> !r.target.Malformed? && forall a :: a in e.attributes ==> Storable(a, StagedColumn(e, r, a))
  {
    hide Storable, MatchKey, Validated, Stored, ByBusinessKey, ByMatchKey;
    var outcome := Validated(e, r.payload, Partial(r.op));
    var columns := Filled(e.attributes, outcome.values);
    forall a | a in e.attributes ensures At(columns, a.name) == StagedColumn(e, r, a) {
      ValidatedColumn(e, r.payload, Partial(r.op), a);
      FilledColumn(e.attributes, outcome.values, a);
    }
  }

  /** A write whose validation finds nothing wrong is always staged. */
  lemma ValidWriteIsStaged(e: Entity, live: map<RecordId, GoldenRow>, now: Time, r: LandingRow, i: nat, batch: nat,
                           pick: Chooser)
    requires WellFormed(e) && ConvertsOpaquely(e.platform)
    requires forall a :: a in e.attributes ==> Bounded(a) && Storable(a, a.ddlDefault)
    requires !r.target.Malformed? && Validated(e, r.payload, Partial(r.op)).faults == {}
    ensures Assess(e, live, now, r, i, batch, pick).Stage?
  {
    hide Storable, Validated, Stored, Assess, Faults, Bounded;
    ValidatedClean(e, r.payload, Partial(r.op));
    forall a | a in e.attributes ensures Storable(a, StagedColumn(e, r, a)) {
      assert Sound(e, a, r.payload, Partial(r.op));
      if Looked(a, r.payload, Partial(r.op)) {
        FaultlessFits(e.platform, a, r.payload);
      }
    }
    StagedIff(e, live, now, r, i, batch, pick);
  }

  /** An edit of an open row goes through exactly when it names known fields and its columns fit, valid or not. */
  lemma EditedIff(e: Entity, s: State, now: Time, sid: nat, updates: Row, actor: string)
    requires WellFormed(e) && RowsSound(e, s.staging)
    ensures EditVerdict(e, s, now, sid, updates, actor).Edited?
       <==> sid < |s.staging| && s.staging[sid].status != Applied && updates.Keys <= Names(e.attributes)
            && forall a :: a in e.attributes ==> Storable(a, Stored(e.platform, a, s.staging[sid].values + updates))
  {
    hide Storable, MatchKey, Validated, Stored;
    if sid < |s.staging| && updates.Keys <= Names(e.attributes) {
      var r := s.staging[sid];
      assert RowSound(e, r);
      var merged := r.values + updates;
      forall a | a in e.attributes
        ensures At(EditedRow(e, r, now, updates, actor).values, a.name) == Stored(e.platform, a, merged)
      {
        assert a.name in merged;
        ValidatedColumn(e, merged, Partial(r.op), a);
      }
    }
  }

  /** In every reachable state, an edit that leaves nothing wrong with an open row is stored. */
  lemma ValidEditIsStored(e: Entity, events: seq<Event>, now: Time, sid: nat, updates: Row, actor: string)
    requires WellFormed(e) && ConvertsOpaquely(e.platform) && forall a :: a in e.attributes ==> Bounded(a)
    requires sid < |Run(e, events).staging| && Run(e, events).staging[sid].status != Applied
    requires updates.Keys <= Names(e.attributes)
    requires EditedRow(e, Run(e, events).staging[sid], now, updates, actor).isValid
    ensures EditVerdict(e, Run(e, events), now, sid, updates, actor) == Edited({})
  {
    hide Storable, Validated, Stored, Faults, Bounded, Run, MatchKey;
    var s := Run(e, events);
    StagedRowsSound(e, events);
    assert RowSound(e, s.staging[sid]);
    var merged := s.staging[sid].values + updates;
    ValidatedClean(e, merged, Partial(s.staging[sid].op));
    forall a | a in e.attributes ensures Storable(a, Stored(e.platform, a, merged)) {
      assert a.name in merged && Sound(e, a, merged, Partial(s.staging[sid].op));
      FaultlessFits(e.platform, a, merged);
    }
    EditedIff(e, s, now, sid, updates, actor);
  }

  /**
   Staging does not hold every invalid write: a text longer than its column keeps the row out of
   staging altogether, although validation calls it a fault like any other.
   */
  lemma OverlongIsNotStaged(e: Entity, live: map<RecordId, GoldenRow>, now: Time, r: LandingRow, i: nat, batch: nat,
                            pick: Chooser, a: Attribute)
    requires WellFormed(e) && a in e.attributes && ColumnType(a).Some? && ColumnType(a).value.Varchar?
    requires Looked(a, r.payload, Partial(r.op))
    requires Stored(e.platform, a, r.payload).Text? && |Stored(e.platform, a, r.payload).s| > ColumnType(a).value.n
    ensures Assess(e, live, now, r, i, batch, pick) == Unstageable
    ensures Bounded(a) ==> Faults(e.platform, a, r.payload) != {}
  {
    hide Assess, Stored, Read;
    StagedIff(e, live, now, r, i, batch, pick);
    assert !Storable(a, StagedColumn(e, r, a));
    var v := Stored(e.platform, a, r.payload);
    if Bounded(a) {
      assert Fault(a.name, MaxLength) in TextFaults(e.platform, a, v.s);
    }
  }
}

/**
 From a raw key to the golden record it means (app/services/pipeline.py `_resolve_target`,
 `edit_staging`): a key that was normalised, staged, perhaps edited and approved is found again
 by any later write whose raw key normalises alike.
 */
module Resolution {
  import opened Common
  import opened Values
  import opened Strings
  import opened TypeSystem
  import opened Normalization
  import opened EntityModel
  import opened Validation
  import opened Ledger
  import opened Matching
  import opened Pipeline
  import opened Refinement
  import opened Conservation
  import opened GoldenRules

  // ---------------------------------------------------------------- stored keys

  /** A text or e-mail attribute whose rules normalise idempotently. */
  predicate StableText(a: Attribute) {
    a.dataType in {StringT, TextT, UrlT, EnumT, EmailT} && forall r :: r in a.rules ==> Stable(r)
  }

  /** The stored form of a raw text key; what is not an e-mail address is not stored as one. */
  function Clean(p: Platform, a: Attribute, raw: Value): Value {
    var v := Normalized(raw, a.rules);
    if v.Null? || (v.Text? && Blank(v.s)) then Null
    else if !a.dataType.EmailT? then Text(PyText(v))
    else if p.isEmail(Strip(PyText(v))) then Text(Strip(PyText(v)))
    else Null
  }

  predicate TextLike(v: Value) {
    v.Text? || v.Null?
  }

  /** A stored key is its own stored form. */
  lemma CleanTwice(p: Platform, a: Attribute, raw: Value)
    requires StableText(a) && TextLike(raw)
    ensures Clean(p, a, Clean(p, a, raw)) == Clean(p, a, raw) && TextLike(Clean(p, a, raw))
  {
    hide NormalizedText, Strip;
    NormalizeIdempotent(raw, a.rules);
    if raw.Text? && a.dataType.EmailT? {
      NormalizedIsCleaned(raw.s, a.rules);
      StripTwice(Cleaned(EffectOf(a.rules), raw.s));
      StrippedIsStable(raw.s, a.rules);
    }
  }

  /** Normalising a normalised text that was then stripped, and stripping again, changes nothing. */
  lemma StrippedIsStable(s: string, rules: seq<Rule>)
    requires forall r :: r in rules ==> Stable(r)
    ensures var t := Strip(Cleaned(EffectOf(rules), s));
      NormalizedText(t, rules).Some? && Strip(NormalizedText(t, rules).value) == t
  {
    hide Strip, Cleaned;
    var e := EffectOf(rules);
    var t := Strip(Cleaned(e, s));
    CleanedStep(e, Trim, s);
    CleanedStep(e, Trim, t);
    CleanedTwice(Add(e, Trim), s);
    NormalizedIsCleaned(t, rules);
  }

  /** A column that is present is stored clean. */
  lemma StoredClean(p: Platform, a: Attribute, payload: Row)
    requires StableText(a) && a.name in payload
    ensures Stored(p, a, payload) == Clean(p, a, payload[a.name])
  {
    hide Normalized, PyText, Strip;
  }

  lemma AssessedColumn(e: Entity, live: map<RecordId, GoldenRow>, now: Time, r: LandingRow, i: nat, batch: nat,
                       pick: Chooser, a: Attribute)
    requires WellFormed(e) && a in e.attributes && StableText(a) && a.name in r.payload
    requires Assess(e, live, now, r, i, batch, pick).Stage?
    ensures At(Assess(e, live, now, r, i, batch, pick).row.values, a.name) == Clean(e.platform, a, r.payload[a.name])
  {
    hide Resolve, Stageable, MatchKey, Validated, Filled, Stored, Clean, StableText;
    var outcome := Validated(e, r.payload, Partial(r.op));
    ValidatedColumn(e, r.payload, Partial(r.op), a);
    FilledColumn(e.attributes, outcome.values, a);
    StoredClean(e.platform, a, r.payload);
  }

  lemma EditedColumn(e: Entity, r: StagingRow, now: Time, updates: Row, actor: string, a: Attribute)
    requires WellFormed(e) && a in e.attributes && StableText(a) && r.values.Keys == Names(e.attributes)
    ensures At(EditedRow(e, r, now, updates, actor).values, a.name)
         == Clean(e.platform, a, (r.values + updates)[a.name])
  {
    hide Stageable, MatchKey, Validated, Stored, Clean, StableText;
    ValidatedColumn(e, r.values + updates, Partial(r.op), a);
    StoredClean(e.platform, a, r.values + updates);
  }

  // ---------------------------------------------------------------- where a staged value comes from

  /** The last raw value a row was given for a field: by an edit, else by the landed payload. */
  function RawOf(e: Entity, events: seq<Event>, sid: nat, name: string): Option<Value> {
    if events == [] then None
    else
      var before, last := events[..|events| - 1], events[|events| - 1];
      var s, s' := Run(e, before), Run(e, events);
      if sid < |s.staging| then
        if last.step.DoEdit? && last.step.sid == sid && name in last.step.updates
           && EditVerdict(e, s, last.at, sid, last.step.updates, last.step.actor).Edited?
        then Some(last.step.updates[name])
        else RawOf(e, before, sid, name)
      else if sid < |s'.staging| && s'.staging[sid].landingId < |s.landing| then
        var payload := s.landing[s'.staging[sid].landingId].payload;
        if name in payload then Some(payload[name]) else None
      else None
  }

  /** How a step treats one staged column that it does not edit. */
  lemma ColumnStep(e: Entity, s: State, ev: Event, sid: nat, a: Attribute)
    requires WellFormed(e) && RowsSound(e, s.staging) && a in e.attributes && StableText(a)
    requires sid < |s.staging|
    ensures sid < |Next(e, s, ev).staging|
    ensures var before, after := At(s.staging[sid].values, a.name), At(Next(e, s, ev).staging[sid].values, a.name);
      if ev.step.DoEdit? && ev.step.sid == sid && EditVerdict(e, s, ev.at, sid, ev.step.updates, ev.step.actor).Edited?
      then after == Clean(e.platform, a, if a.name in ev.step.updates then ev.step.updates[a.name] else before)
      else after == before
  {
    hide Validated, ChangeFor, Apply, Stageable, PromoteRows, Assess, EditedRow, Clean, StableText;
    match ev.step {
      case DoPromote(ids, limit, actor, pick) =>
        PromotionStages(e, s, ev.at, Take(PendingRows(s.landing, ids), limit), |s.batches|, pick);
      case DoEdit(sid', updates, actor) =>
        assert RowSound(e, s.staging[sid]);
        if sid' == sid {
          EditedColumn(e, s.staging[sid], ev.at, updates, actor, a);
        }
      case _ =>
    }
  }

  /** A row that appears was staged by a promotion from a landing row of the state before. */
  lemma ColumnBirth(e: Entity, s: State, ev: Event, sid: nat, a: Attribute)
    requires WellFormed(e) && a in e.attributes && StableText(a)
    requires |s.staging| <= sid < |Next(e, s, ev).staging|
    ensures var row := Next(e, s, ev).staging[sid];
      row.landingId < |s.landing|
      && (a.name in s.landing[row.landingId].payload ==>
          At(row.values, a.name) == Clean(e.platform, a, s.landing[row.landingId].payload[a.name]))
  {
    hide Validated, ChangeFor, Apply, Stageable, PromoteRows, Assess, Clean, StableText;
    assert ev.step.DoPromote?;
    var rows := Take(PendingRows(s.landing, ev.step.ids), ev.step.limit);
    PromotionStages(e, s, ev.at, rows, |s.batches|, ev.step.pick);
    var i := Next(e, s, ev).staging[sid].landingId;
    if a.name in s.landing[i].payload {
      AssessedColumn(e, s.book.live, ev.at, s.landing[i], i, |s.batches|, ev.step.pick, a);
    }
  }

  /**
   Key provenance: over any run, a string column holds the stored form of the last raw text it
   was given, however often the row was edited elsewhere.
   */
  lemma {:induction false} KeyProvenance(e: Entity, events: seq<Event>, sid: nat, a: Attribute)
    requires WellFormed(e) && a in e.attributes && StableText(a)
    requires sid < |Run(e, events).staging|
    requires RawOf(e, events, sid, a.name).Some? && TextLike(RawOf(e, events, sid, a.name).value)
    ensures At(Run(e, events).staging[sid].values, a.name) == Clean(e.platform, a, RawOf(e, events, sid, a.name).value)
  {
    hide Next, Clean, StableText, EditVerdict;
    var before, last := events[..|events| - 1], events[|events| - 1];
    var s := Run(e, before);
    StagedRowsSound(e, before);
    if sid < |s.staging| {
      ColumnStep(e, s, last, sid, a);
      if RawOf(e, before, sid, a.name) == RawOf(e, events, sid, a.name) {
        KeyProvenance(e, before, sid, a);
        CleanTwice(e.platform, a, RawOf(e, before, sid, a.name).value);
      }
    } else {
      ColumnBirth(e, s, last, sid, a);
    }
  }

  // ---------------------------------------------------------------- finding the record again

  /** Active records that share a unique key value are one record. */
  lemma UniqueKeyAlone(e: Entity, live: map<RecordId, GoldenRow>, values: Row, a: Attribute, id: RecordId,
                       other: RecordId)
    requires GoldenSound(e, live) && a in BusinessKey(e) && a.unique
    requires id in ByBusinessKey(e, live, values) && other in ByBusinessKey(e, live, values)
    ensures other == id
  {
    hide ColumnsFit, Selected;
    KeyAttributeKnown(e, a);
    assert At(live[id].values, a.name) == At(values, a.name) == At(live[other].values, a.name);
    assert Clashes(e, live[id], live[other]);
  }

  /**
   A complete business key that an active record carries is resolved to a record carrying it, and
   an INSERT is told so. With a unique key attribute there is no other such record.
   */
  lemma BusinessKeyResolves(e: Entity, live: map<RecordId, GoldenRow>, values: Row, op: Operation, pick: Chooser,
                            id: RecordId)
    requires BusinessKey(e) != [] && HasAll(values, BusinessKey(e))
    requires id in live && !live[id].deleted && SameBusinessKey(BusinessKey(e), values, live[id].values)
    requires GoldenSound(e, live)
    ensures var r := Resolve(e, live, values, NoTarget, op, pick);
      && r.Resolved? && r.target.Some? && r.target.value in ByBusinessKey(e, live, values)
      && r.faults == (if op.OpInsert? then {Fault(BusinessKey(e)[0].name, Duplicate)} else {})
      && ((exists a :: a in BusinessKey(e) && a.unique) ==>
          ByBusinessKey(e, live, values) == {id} && r.target == Some(id))
  {
    hide ColumnsFit, Selected, GoldenSound;
    var found := ByBusinessKey(e, live, values);
    assert id in found;
    if a :| a in BusinessKey(e) && a.unique {
      forall other | other in found ensures other == id {
        UniqueKeyAlone(e, live, values, a, id, other);
      }
      assert found == {id};
    }
  }

  predicate Complete(values: Row, keys: seq<Attribute>) {
    keys != [] && HasAll(values, keys)
  }

  predicate HasKey(e: Entity, golden: GoldenRow, values: Row) {
    !golden.deleted && SameBusinessKey(BusinessKey(e), values, golden.values)
  }

  predicate HasProbe(e: Entity, golden: GoldenRow, values: Row) {
    !golden.deleted && SameProbe(MatchKeys(e), values, golden.values)
  }

  /**
   An explicit id is looked up among all golden records, deleted ones included, and decides alone. A
   complete business key decides alone too: a record that only the match key would find is not taken.
   Where the business key is missing or incomplete, a complete match key decides, and without one
   nothing is found.
   */
  lemma ResolutionPrecedence(e: Entity, live: map<RecordId, GoldenRow>, values: Row, op: Operation, pick: Chooser,
                             id: RecordId)
    ensures var r := Resolve(e, live, values, Explicit(id), op, pick);
      r == Resolved(if id in live then Some(id) else None, if id in live then {} else {Fault("mdm_id", NotFound)})
    ensures Complete(values, BusinessKey(e)) ==>
      var r := Resolve(e, live, values, NoTarget, op, pick);
      r.Resolved? && (r.target.Some? <==> exists other :: other in live && HasKey(e, live[other], values))
    ensures !Complete(values, BusinessKey(e)) && Complete(values, MatchKeys(e)) ==>
      var r := Resolve(e, live, values, NoTarget, op, pick);
      r.Resolved? && (r.target.Some? <==> exists other :: other in live && HasProbe(e, live[other], values))
    ensures !Complete(values, BusinessKey(e)) && !Complete(values, MatchKeys(e)) ==>
      Resolve(e, live, values, NoTarget, op, pick) == Resolved(None, {})
  {
    hide Selected, HasKey, HasProbe, Complete;
    if Complete(values, BusinessKey(e)) {
      KeyDecides(e, live, values, op, pick);
    } else if Complete(values, MatchKeys(e)) {
      ProbeDecides(e, live, values, op, pick);
    } else {
      NothingDecides(e, live, values, op, pick);
    }
  }

  lemma KeyDecides(e: Entity, live: map<RecordId, GoldenRow>, values: Row, op: Operation, pick: Chooser)
    requires Complete(values, BusinessKey(e))
    ensures var r := Resolve(e, live, values, NoTarget, op, pick);
      r.Resolved? && (r.target.Some? <==> exists other :: other in live && HasKey(e, live[other], values))
  {
    hide Selected, SameBusinessKey, HasAll, ByMatchKey;
    var found := ByBusinessKey(e, live, values);
    assert forall other :: other in found <==> other in live && HasKey(e, live[other], values);
    if found != {} {
      assert pick(found) in found;
    }
  }

  lemma ProbeDecides(e: Entity, live: map<RecordId, GoldenRow>, values: Row, op: Operation, pick: Chooser)
    requires !Complete(values, BusinessKey(e)) && Complete(values, MatchKeys(e))
    ensures var r := Resolve(e, live, values, NoTarget, op, pick);
      r.Resolved? && (r.target.Some? <==> exists other :: other in live && HasProbe(e, live[other], values))
  {
    hide Selected, SameProbe, HasAll, ByBusinessKey;
    var probed := ByMatchKey(e, live, values);
    assert forall other :: other in probed <==> other in live && HasProbe(e, live[other], values);
    if probed != {} {
      assert pick(probed) in probed;
    }
  }

  lemma NothingDecides(e: Entity, live: map<RecordId, GoldenRow>, values: Row, op: Operation, pick: Chooser)
    requires !Complete(values, BusinessKey(e)) && !Complete(values, MatchKeys(e))
    ensures Resolve(e, live, values, NoTarget, op, pick) == Resolved(None, {})
  {
    hide Selected, HasAll, ByBusinessKey, ByMatchKey;
  }

  lemma KeyAttributeKnown(e: Entity, a: Attribute)
    requires a in BusinessKey(e)
    ensures a in e.attributes
  {
  }

  /** The raw key of a payload and the raw key a row was last given normalise alike. */
  predicate SameRawKey(e: Entity, events: seq<Event>, sid: nat, payload: Row, a: Attribute) {
    var raw := RawOf(e, events, sid, a.name);
    && a.name in payload && raw.Some? && TextLike(payload[a.name]) && TextLike(raw.value)
    && Normalized(payload[a.name], a.rules) == Normalized(raw.value, a.rules)
    && !Clean(e.platform, a, raw.value).Null?
  }

  /** Approving a row without a target creates the golden record with the row's columns. */
  lemma ApprovalCreates(e: Entity, past: seq<Event>, ev: Event)
    requires ev.step.DoApprove? && EntryOf(e, Run(e, past), ev) != [] && EntryOf(e, Run(e, past), ev)[0].change.Insert?
    ensures var s := Run(e, past);
      ev.step.sid < |s.staging| && ev.step.newId in Run(e, past + [ev]).book.live
      && Run(e, past + [ev]).book.live[ev.step.newId].values == s.staging[ev.step.sid].values
  {
    hide Acceptable, BySelf;
    assert (past + [ev])[..|past|] == past;
  }

  /** The change gave the record this column. */
  predicate Gives(c: Change, id: RecordId, name: string) {
    match c
    case Insert(i, values, _, _, _) => i == id && name in values
    case Amend(i, sets, _, _) => i == id && name in sets
    case _ => false
  }

  /** The k-th event of the run approved a row that gave the record this column. */
  predicate GivenBy(e: Entity, events: seq<Event>, k: nat, id: RecordId, name: string) {
    k < |events| && events[k].step.DoApprove? &&
    var entry := EntryOf(e, Run(e, events[..k]), events[k]);
    entry != [] && Gives(entry[0].change, id, name)
  }

  /** A column given by an approval, creating the record or updating it, reads as the staged row's. */
  lemma ApprovalGives(e: Entity, s: State, ev: Event, id: RecordId, name: string)
    requires ev.step.DoApprove? && EntryOf(e, s, ev) != [] && Gives(EntryOf(e, s, ev)[0].change, id, name)
    ensures ev.step.sid < |s.staging| && id in Next(e, s, ev).book.live
    ensures At(Next(e, s, ev).book.live[id].values, name) == At(s.staging[ev.step.sid].values, name)
  {
    hide Acceptable, BySelf;
  }

  /**
   An approval gave the record the column from a raw text that normalises like the payload's, and
   the column has not changed since.
   */
  predicate KeySince(e: Entity, events: seq<Event>, k: nat, id: RecordId, payload: Row, a: Attribute) {
    && GivenBy(e, events, k, id, a.name)
    && id in Run(e, events[..k + 1]).book.live && id in Run(e, events).book.live
    && At(Run(e, events).book.live[id].values, a.name) == At(Run(e, events[..k + 1]).book.live[id].values, a.name)
    && SameRawKey(e, events[..k], events[k].step.sid, payload, a)
  }

  lemma KeyReads(e: Entity, events: seq<Event>, k: nat, id: RecordId, payload: Row, a: Attribute)
    requires WellFormed(e) && a in e.attributes && StableText(a) && KeySince(e, events, k, id, payload, a)
    ensures At(Run(e, events).book.live[id].values, a.name) == Clean(e.platform, a, payload[a.name])
    ensures !Clean(e.platform, a, payload[a.name]).Null?
  {
    hide Run, EntryOf, Next, Clean, StableText, RawOf, Gives;
    var past, ev := events[..k], events[k];
    assert events[..k + 1][..k] == past && events[..k + 1][k] == ev;
    assert Run(e, events[..k + 1]) == Next(e, Run(e, past), ev) by { RunLast(e, events[..k + 1]); }
    ApprovalGives(e, Run(e, past), ev, id, a.name);
    KeyProvenance(e, past, ev.step.sid, a);
    CleanAlike(e.platform, a, payload[a.name], RawOf(e, past, ev.step.sid, a.name).value);
  }

  lemma RunLast(e: Entity, events: seq<Event>)
    requires events != []
    ensures Run(e, events) == Next(e, Run(e, events[..|events| - 1]), events[|events| - 1])
  {
    hide Next;
  }

  /**
   Business-key resolution across the pipeline. Take any run at whose end a record is active, each
   of its key columns given by some approval (its creation or a later update) of a row that had been
   normalised, staged and perhaps edited. A landed write without an explicit id whose raw key
   normalises alike resolves to a record with that key; with a unique key attribute, to that very
   record. If the write is an INSERT, it is a duplicate and cannot be valid.
   */
  lemma KeyFoundAgain(e: Entity, events: seq<Event>, id: RecordId, now: Time, r: LandingRow, i: nat, batch: nat,
                      pick: Chooser)
    requires WellFormed(e) && BusinessKey(e) != [] && forall a :: a in BusinessKey(e) ==> StableText(a)
    requires id in Run(e, events).book.live && !Run(e, events).book.live[id].deleted && r.target.NoTarget?
    requires forall a :: a in BusinessKey(e) ==>
        a.name in r.payload && exists k :: KeySince(e, events, k, id, r.payload, a)
    ensures var live, outcome := Run(e, events).book.live, Validated(e, r.payload, Partial(r.op));
      var res := Resolve(e, live, outcome.values, r.target, r.op, pick);
      && res.Resolved? && res.target.Some? && res.target.value in live
      && SameBusinessKey(BusinessKey(e), live[id].values, live[res.target.value].values)
      && ((exists a :: a in BusinessKey(e) && a.unique) ==> res.target == Some(id))
      && (r.op.OpInsert? ==> res.faults == {Fault(BusinessKey(e)[0].name, Duplicate)})
      && (r.op.OpInsert? && Assess(e, live, now, r, i, batch, pick).Stage? ==>
          !Assess(e, live, now, r, i, batch, pick).row.isValid)
  {
    hide Run, Validated, KeySince, Stored, Clean, StableText, Selected, Filled, MatchKey, Stageable, Resolve;
    var live, outcome, keys := Run(e, events).book.live, Validated(e, r.payload, Partial(r.op)), BusinessKey(e);
    forall a | a in keys
      ensures At(outcome.values, a.name) == At(live[id].values, a.name) && !At(outcome.values, a.name).Null?
    {
      KeyAttributeKnown(e, a);
      var k :| KeySince(e, events, k, id, r.payload, a);
      KeyReads(e, events, k, id, r.payload, a);
      ValidatedColumn(e, r.payload, Partial(r.op), a);
      StoredClean(e.platform, a, r.payload);
    }
    GoldenAlwaysSound(e, events);
    BusinessKeyResolves(e, live, outcome.values, r.op, pick, id);
  }

  lemma CleanAlike(p: Platform, a: Attribute, u: Value, v: Value)
    requires Normalized(u, a.rules) == Normalized(v, a.rules)
    ensures Clean(p, a, u) == Clean(p, a, v)
  {
  }

  // ---------------------------------------------------------------- what an edit forgets

  predicate FromResolution(f: Fault) {
    f.code in {NotFound, Duplicate, ProbableDuplicate}
  }

  lemma AttributeFaults(p: Platform, a: Attribute, payload: Row)
    ensures forall f :: f in Faults(p, a, payload) ==> !FromResolution(f)
  {
    hide Stored, Read, NumberOf, LengthLimit;
  }

  lemma UnknownNeverResolves(e: Entity, payload: Row)
    ensures forall f :: f in UnknownFaults(e, payload) ==> !FromResolution(f)
  {
  }

  lemma {:induction false} ValidationNeverResolves(e: Entity, payload: Row, partial: bool, n: nat)
    requires n <= |e.attributes|
    ensures forall f :: f in ValidatedUpTo(e, payload, partial, n).faults ==> !FromResolution(f)
  {
    hide Stored, Faults, UnknownFaults, FromResolution, Looked;
    UnknownNeverResolves(e, payload);
    if n > 0 {
      ValidationNeverResolves(e, payload, partial, n - 1);
      AttributeFaults(e.platform, e.attributes[n - 1], payload);
    }
  }

  /**
   An edit recomputes the errors from validation alone and keeps the target, so whatever resolution
   had found wrong is gone: a duplicate INSERT then updates the record it duplicates, an UPDATE of
   an unknown id creates a record, and a DELETE of one can only fail in the database.
   */
  lemma EditForgetsResolution(e: Entity, b: Book, r: StagingRow, now: Time, updates: Row, editor: string, at: Time,
                              sid: nat, actor: string, newId: RecordId)
    ensures var row := EditedRow(e, r, now, updates, editor);
      var v := ChangeFor(e, b, at, row, sid, actor, newId);
      && (forall f :: f in row.faults ==> !FromResolution(f))
      && row.target == r.target
      && (r.op.OpInsert? && r.target.Some? && v.Granted? ==> v.change == Amend(r.target.value, SetsOf(row), actor, sid))
      && (r.op.OpUpdate? && r.target.None? && v.Granted? ==>
          v.change == Insert(newId, row.values, actor, sid, r.source))
      && (r.op.OpDelete? && r.target.None? ==> v == Violated)
  {
    hide Acceptable, SetsOf, MatchKey;
    ValidationNeverResolves(e, r.values + updates, Partial(r.op), |e.attributes|);
  }
}

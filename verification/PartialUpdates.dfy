/**
 What an approved update touches (app/services/pipeline.py `_apply_update`, `edit_staging`):
 only what was supplied, in whatever order disjoint updates are approved. An update that
 supplies nothing is the exception: it writes the DDL defaults.
 */
module PartialUpdates {
  import opened Common
  import opened Values
  import opened EntityModel
  import opened Validation
  import opened Ledger
  import opened Matching
  import opened Pipeline
  import opened Conservation
  import opened GoldenRules
  import opened Bulk

  // ---------------------------------------------------------------- frame

  /**
   Approving an update with a non-empty supplied set leaves every other column of the record,
   and every other record, as it was; the supplied columns take their staged values and the
   version goes up by one.
   */
  lemma UpdateFrame(e: Entity, events: seq<Event>, at: Time, sid: nat, actor: string, sod: bool, note: Option<string>,
                    newId: RecordId)
    requires WellFormed(e)
    requires var v := ApproveVerdict(e, Run(e, events), at, sid, actor, sod, newId);
      v.Granted? && v.change.Amend? && Run(e, events).staging[sid].supplied != {}
    ensures var s := Run(e, events);
      var r, id := s.staging[sid], s.staging[sid].target.value;
      var before, after := s.book.live, Approve(e, s, at, sid, actor, sod, note, newId).book.live;
      && id in before && after.Keys == before.Keys
      && after[id].version == before[id].version + 1
      && (forall other :: other in before && other != id ==> after[other] == before[other])
      && (forall name :: name in r.supplied ==>
          name in after[id].values && after[id].values[name] == At(r.values, name))
      && (forall name :: name !in r.supplied ==> At(after[id].values, name) == At(before[id].values, name))
      && after[id].deleted == before[id].deleted && after[id].createdAt == before[id].createdAt
  {
    hide ApproveVerdict, Approve, Stageable, RequiredPresent, Run;
    StagedRowsSound(e, events);
    var s := Run(e, events);
    GrantedAmend(e, s, at, sid, actor, sod, note, newId);
    var r := s.staging[sid];
    assert RowSound(e, r);
    var name :| name in r.supplied;
    assert name in SetsOf(r);
  }

  /** A granted update replaces one golden row. */
  lemma GrantedAmend(e: Entity, s: State, at: Time, sid: nat, actor: string, sod: bool, note: Option<string>,
                     newId: RecordId)
    requires var v := ApproveVerdict(e, s, at, sid, actor, sod, newId); v.Granted? && v.change.Amend?
    ensures sid < |s.staging| && s.staging[sid].target.Some? && s.staging[sid].target.value in s.book.live
    ensures var r, id, live := s.staging[sid], s.staging[sid].target.value, s.book.live;
      Approve(e, s, at, sid, actor, sod, note, newId).book.live
           == live[id := AmendedRow(live[id], at, SetsOf(r), actor, sid)]
  {
    hide Acceptable, BySelf, SetsOf, AmendedRow;
  }

  /** A steward's edits only ever add to the supplied set, and add every field edited. */
  lemma SuppliedGrows(e: Entity, s: State, ev: Event, sid: nat)
    requires sid < |s.staging|
    ensures sid < |Next(e, s, ev).staging| && s.staging[sid].supplied <= Next(e, s, ev).staging[sid].supplied
    ensures ev.step.DoEdit? && ev.step.sid == sid
            && EditVerdict(e, s, ev.at, sid, ev.step.updates, ev.step.actor).Edited? ==>
      Next(e, s, ev).staging[sid].supplied == s.staging[sid].supplied + ev.step.updates.Keys
  {
    hide Validated, ChangeFor, Stageable, PromoteRows, Apply;
    if ev.step.DoPromote? {
      hide Assess;
      var rows := Take(PendingRows(s.landing, ev.step.ids), ev.step.limit);
      PromotionStages(e, s, ev.at, rows, |s.batches|, ev.step.pick);
    }
  }

  // ---------------------------------------------------------------- nothing supplied

  /** Staging an UPDATE whose payload names no attribute fills every column with its DDL default. */
  lemma EmptyUpdateColumns(e: Entity, live: map<RecordId, GoldenRow>, now: Time, r: LandingRow, i: nat, batch: nat,
                           pick: Chooser)
    requires WellFormed(e) && r.op.OpUpdate? && r.payload.Keys !! Names(e.attributes)
    requires Assess(e, live, now, r, i, batch, pick).Stage?
    ensures var row := Assess(e, live, now, r, i, batch, pick).row;
      && row.supplied == {} && row.values.Keys == Names(e.attributes)
      && forall a :: a in e.attributes ==> row.values[a.name] == a.ddlDefault
  {
    hide Resolve, Stageable, MatchKey, Validated, Filled;
    var row := Assess(e, live, now, r, i, batch, pick).row;
    var outcome := Validated(e, r.payload, true);
    FilledKeys(e.attributes, outcome.values);
    forall a | a in e.attributes
      ensures a.name in row.values && row.values[a.name] == a.ddlDefault
    {
      ValidatedColumn(e, r.payload, true, a);
      FilledColumn(e.attributes, outcome.values, a);
    }
  }

  /**
   An UPDATE whose payload names no attribute is staged with the DDL defaults in every column,
   and approving it sets each column that has one. The golden values survive exactly when no
   default differs from them.
   */
  lemma EmptyUpdateLeaksDefaults(e: Entity, live: map<RecordId, GoldenRow>, now: Time, r: LandingRow, i: nat,
                                 batch: nat, pick: Chooser, golden: GoldenRow, at: Time, actor: string, sid: nat)
    requires WellFormed(e) && r.op.OpUpdate? && r.payload.Keys !! Names(e.attributes)
    requires Assess(e, live, now, r, i, batch, pick).Stage? && golden.values.Keys == Names(e.attributes)
    ensures var row := Assess(e, live, now, r, i, batch, pick).row;
      && row.supplied == {}
      && (forall a :: a in e.attributes ==>
            && (a.name in SetsOf(row) <==> !a.ddlDefault.Null?)
            && (a.name in SetsOf(row) ==> SetsOf(row)[a.name] == a.ddlDefault))
      && (AmendedRow(golden, at, SetsOf(row), actor, sid).values == golden.values
          <==> forall a :: a in e.attributes ==> a.ddlDefault.Null? || a.ddlDefault == golden.values[a.name])
  {
    hide Assess;
    var row := Assess(e, live, now, r, i, batch, pick).row;
    EmptyUpdateColumns(e, live, now, r, i, batch, pick);
    var sets := SetsOf(row);
    forall a | a in e.attributes
      ensures (a.name in sets <==> !a.ddlDefault.Null?) && (a.name in sets ==> sets[a.name] == a.ddlDefault)
    {
    }
    assert forall name :: name in sets ==> name in Names(e.attributes);
    assert AmendedRow(golden, at, sets, actor, sid).values == golden.values + sets;
    hide SetsOf, AmendedRow;
    Overwriting(golden.values, sets);
  }

  /** Overwriting leaves values alone exactly when it repeats them. */
  lemma Overwriting(values: Row, sets: Row)
    ensures values + sets == values <==> forall k :: k in sets ==> k in values && values[k] == sets[k]
  {
    if values + sets == values {
      forall k | k in sets ensures k in values && values[k] == sets[k] {
        assert (values + sets)[k] == sets[k];
      }
    }
  }

  // ---------------------------------------------------------------- order

  /** The i-th approval goes through as an update of record id. */
  predicate Goes(e: Entity, s: State, attempts: seq<Attempt>, actor: string, sod: bool, note: Option<string>,
                 id: RecordId, i: nat)
    requires i < |attempts|
  {
    var t, a := OneByOne(e, s, attempts[..i], actor, sod, note), attempts[i];
    var v := ApproveVerdict(e, t, a.at, a.sid, actor, sod, a.newId);
    v.Granted? && v.change.Amend? && v.change.id == id
  }

  ghost predicate AllGo(e: Entity, s: State, attempts: seq<Attempt>, actor: string, sod: bool, note: Option<string>,
                        id: RecordId) {
    forall i :: 0 <= i < |attempts| ==> Goes(e, s, attempts, actor, sod, note, id, i)
  }

  /** The updates set something, and no two of them the same column. */
  ghost predicate Disjoint(s: State, sids: seq<nat>) {
    && (forall sid :: sid in sids ==> sid < |s.staging| && SetsOf(s.staging[sid]) != map[])
    && (forall p, q :: p in sids && q in sids && p != q ==> SetsOf(s.staging[p]).Keys !! SetsOf(s.staging[q]).Keys)
  }

  /** One of the updates sets the column. */
  ghost predicate Touched(s: State, sids: seq<nat>, name: string)
    requires forall sid :: sid in sids ==> sid < |s.staging|
  {
    exists sid :: sid in sids && name in SetsOf(s.staging[sid])
  }

  /** Every update's columns are in the row. */
  ghost predicate HoldsSets(s: State, sids: seq<nat>, values: Row)
    requires forall sid :: sid in sids ==> sid < |s.staging|
  {
    forall sid, name :: sid in sids && name in SetsOf(s.staging[sid]) ==>
      name in values && values[name] == SetsOf(s.staging[sid])[name]
  }

  /** The columns no update sets read as before. */
  ghost predicate HoldsRest(s: State, sids: seq<nat>, before: Row, values: Row)
    requires forall sid :: sid in sids ==> sid < |s.staging|
  {
    forall name :: !Touched(s, sids, name) ==>
      (name in values <==> name in before) && (name in before ==> values[name] == before[name])
  }

  /** The golden row carries exactly the given updates on top of what it was. */
  ghost predicate Accumulated(s: State, sids: seq<nat>, before: GoldenRow, after: GoldenRow)
    requires forall sid :: sid in sids ==> sid < |s.staging|
  {
    && after.version == before.version + |sids|
    && HoldsSets(s, sids, after.values)
    && HoldsRest(s, sids, before.values, after.values)
  }

  lemma GoesPrefix(e: Entity, s: State, attempts: seq<Attempt>, actor: string, sod: bool, note: Option<string>,
                   id: RecordId)
    requires attempts != [] && AllGo(e, s, attempts, actor, sod, note, id)
    ensures AllGo(e, s, attempts[..|attempts| - 1], actor, sod, note, id)
  {
    hide ApproveVerdict;
    var before := attempts[..|attempts| - 1];
    forall i | 0 <= i < |before| ensures Goes(e, s, before, actor, sod, note, id, i) {
      assert before[..i] == attempts[..i];
      assert Goes(e, s, attempts, actor, sod, note, id, i);
    }
  }

  /** The staging side of a series of approvals: the approved rows are applied, the others as they were. */
  ghost predicate OnlyApplied(before: seq<StagingRow>, after: seq<StagingRow>, sids: seq<nat>) {
    && |after| == |before|
    && forall sid: nat :: sid < |before| ==>
        if sid in sids then after[sid].status == Applied else after[sid] == before[sid]
  }

  /** One more granted update, on a row not yet among the approved ones. */
  lemma OneMore(e: Entity, s: State, t: State, sids: seq<nat>, a: Attempt, actor: string, sod: bool,
                note: Option<string>, id: RecordId)
    requires OnlyApplied(s.staging, t.staging, sids)
    requires var v := ApproveVerdict(e, t, a.at, a.sid, actor, sod, a.newId);
      v.Granted? && v.change.Amend? && v.change.id == id
    ensures a.sid < |s.staging| && a.sid !in sids && id in t.book.live
    ensures var t' := Approve(e, t, a.at, a.sid, actor, sod, note, a.newId);
      && OnlyApplied(s.staging, t'.staging, sids + [a.sid])
      && id in t'.book.live
      && t'.book.live[id] == AmendedRow(t.book.live[id], a.at, SetsOf(s.staging[a.sid]), actor, a.sid)
  {
    hide Acceptable, SetsOf, BySelf, AmendedRow;
  }

  lemma HoldsOneMore(s: State, sids: seq<nat>, sid: nat, values: Row)
    requires sid < |s.staging| && Disjoint(s, sids + [sid]) && sid !in sids
    requires (forall p :: p in sids ==> p < |s.staging|) && HoldsSets(s, sids, values)
    ensures HoldsSets(s, sids + [sid], values + SetsOf(s.staging[sid]))
  {
    hide SetsOf;
    var all, sets := sids + [sid], SetsOf(s.staging[sid]);
    assert all[|sids|] == sid;
    forall p, name | p in all && name in SetsOf(s.staging[p])
      ensures name in values + sets && (values + sets)[name] == SetsOf(s.staging[p])[name]
    {
      if p != sid {
        assert p in sids && sid in all;
        assert SetsOf(s.staging[p]).Keys !! sets.Keys;
      }
    }
  }

  lemma RestOneMore(s: State, sids: seq<nat>, sid: nat, before: Row, values: Row)
    requires sid < |s.staging| && (forall p :: p in sids ==> p < |s.staging|)
    requires HoldsRest(s, sids, before, values)
    ensures HoldsRest(s, sids + [sid], before, values + SetsOf(s.staging[sid]))
  {
    hide SetsOf;
    var all, sets := sids + [sid], SetsOf(s.staging[sid]);
    assert all[|sids|] == sid;
    forall name | !Touched(s, all, name)
      ensures name !in sets && !Touched(s, sids, name)
    {
      assert sid in all && forall p :: p in sids ==> p in all;
    }
  }

  lemma AccumulatedOneMore(s: State, sids: seq<nat>, sid: nat, before: GoldenRow, row: GoldenRow, after: GoldenRow)
    requires sid < |s.staging| && Disjoint(s, sids + [sid]) && sid !in sids
    requires forall p :: p in sids ==> p < |s.staging|
    requires Accumulated(s, sids, before, row)
    requires after.values == row.values + SetsOf(s.staging[sid]) && after.version == row.version + 1
    ensures Accumulated(s, sids + [sid], before, after)
  {
    hide SetsOf, HoldsSets, HoldsRest;
    HoldsOneMore(s, sids, sid, row.values);
    RestOneMore(s, sids, sid, before.values, row.values);
  }

  lemma AmendedValues(row: GoldenRow, at: Time, sets: Row, actor: string, sid: nat)
    requires sets != map[]
    ensures AmendedRow(row, at, sets, actor, sid).values == row.values + sets
    ensures AmendedRow(row, at, sets, actor, sid).version == row.version + 1
    ensures AmendedRow(row, at, sets, actor, sid).deleted == row.deleted
  {
  }

  lemma {:induction false} UpdatesAccumulate(e: Entity, s: State, attempts: seq<Attempt>, actor: string, sod: bool,
                                             note: Option<string>, id: RecordId)
    requires id in s.book.live && AllGo(e, s, attempts, actor, sod, note, id) && Disjoint(s, Sids(attempts))
    ensures var t := OneByOne(e, s, attempts, actor, sod, note);
      && OnlyApplied(s.staging, t.staging, Sids(attempts))
      && id in t.book.live && Accumulated(s, Sids(attempts), s.book.live[id], t.book.live[id])
  {
    hide Approve, ApproveVerdict, SetsOf, AmendedRow;
    if attempts != [] {
      var n := |attempts| - 1;
      var before, a := attempts[..n], attempts[n];
      var t := OneByOne(e, s, before, actor, sod, note);
      GoesPrefix(e, s, attempts, actor, sod, note, id);
      assert Sids(attempts) == Sids(before) + [a.sid];
      assert forall sid :: sid in Sids(before) ==> sid in Sids(attempts);
      UpdatesAccumulate(e, s, before, actor, sod, note, id);
      assert Goes(e, s, attempts, actor, sod, note, id, n);
      OneMore(e, s, t, Sids(before), a, actor, sod, note, id);
      AmendedValues(t.book.live[id], a.at, SetsOf(s.staging[a.sid]), actor, a.sid);
      AccumulatedOneMore(s, Sids(before), a.sid, s.book.live[id], t.book.live[id],
                         OneByOne(e, s, attempts, actor, sod, note).book.live[id]);
    }
  }

  /** The other golden records play no part, and the record stays as deleted or active as it was. */
  lemma {:induction false} OthersStay(e: Entity, s: State, attempts: seq<Attempt>, actor: string, sod: bool,
                                      note: Option<string>, id: RecordId)
    requires id in s.book.live && AllGo(e, s, attempts, actor, sod, note, id)
    ensures var live := OneByOne(e, s, attempts, actor, sod, note).book.live;
      && live.Keys == s.book.live.Keys && live[id].deleted == s.book.live[id].deleted
      && forall other :: other in live && other != id ==> live[other] == s.book.live[other]
  {
    if attempts != [] {
      hide ApproveVerdict, AllGo;
      var n := |attempts| - 1;
      GoesPrefix(e, s, attempts, actor, sod, note, id);
      OthersStay(e, s, attempts[..n], actor, sod, note, id);
      LastGoes(e, s, attempts, actor, sod, note, id);
    }
  }

  lemma LastGoes(e: Entity, s: State, attempts: seq<Attempt>, actor: string, sod: bool, note: Option<string>,
                 id: RecordId)
    requires attempts != [] && AllGo(e, s, attempts, actor, sod, note, id)
    ensures Goes(e, s, attempts, actor, sod, note, id, |attempts| - 1)
  {
  }

  lemma {:induction false} OneByOneSound(e: Entity, s: State, attempts: seq<Attempt>, actor: string, sod: bool,
                                         note: Option<string>)
    requires GoldenSound(e, s.book.live)
    ensures GoldenSound(e, OneByOne(e, s, attempts, actor, sod, note).book.live)
  {
    if attempts != [] {
      hide GoldenSound, Approve, Next;
      var before, a := attempts[..|attempts| - 1], attempts[|attempts| - 1];
      var t, ev := OneByOne(e, s, before, actor, sod, note), Event(a.at, DoApprove(a.sid, actor, sod, note, a.newId));
      OneByOneSound(e, s, before, actor, sod, note);
      NextApproves(e, t, ev);
      GoldenSoundStep(e, t, ev);
    }
  }

  /** Everything about approving the row as an update of the record except what the database says. */
  predicate Ready(s: State, sid: nat, id: RecordId, actor: string, sod: bool) {
    sid < |s.staging| &&
    var r := s.staging[sid];
    && r.status != Applied && r.status != Rejected && r.isValid && !(sod && BySelf(r, actor)) && !r.op.OpDelete?
    && r.target == Some(id)
  }

  lemma ReadyGoes(e: Entity, s: State, t: State, a: Attempt, actor: string, sod: bool, id: RecordId)
    requires Ready(s, a.sid, id, actor, sod) && a.sid < |t.staging| && t.staging[a.sid] == s.staging[a.sid]
    requires id in t.book.live
    requires Acceptable(e, t.book.live, id, AmendedRow(t.book.live[id], a.at, SetsOf(s.staging[a.sid]), actor, a.sid))
    ensures var v := ApproveVerdict(e, t, a.at, a.sid, actor, sod, a.newId);
      v.Granted? && v.change.Amend? && v.change.id == id
  {
    hide Acceptable, SetsOf, BySelf, AmendedRow;
  }

  lemma GoneReady(e: Entity, s: State, t: State, a: Attempt, actor: string, sod: bool, id: RecordId)
    requires a.sid < |t.staging| && a.sid < |s.staging| && t.staging[a.sid] == s.staging[a.sid]
    requires var v := ApproveVerdict(e, t, a.at, a.sid, actor, sod, a.newId);
      v.Granted? && v.change.Amend? && v.change.id == id
    ensures Ready(s, a.sid, id, actor, sod)
  {
    hide Acceptable, SetsOf, BySelf, AmendedRow;
  }

  /** Rows that went through were ready from the start, and none of them twice. */
  lemma {:induction false} AllReady(e: Entity, s: State, p: seq<Attempt>, actor: string, sod: bool,
                                    note: Option<string>, id: RecordId)
    requires id in s.book.live && AllGo(e, s, p, actor, sod, note, id) && Disjoint(s, Sids(p))
    ensures forall sid :: sid in Sids(p) ==> Ready(s, sid, id, actor, sod)
    ensures forall sid :: multiset(Sids(p))[sid] <= 1
  {
    if p != [] {
      hide Approve, ApproveVerdict, SetsOf, AmendedRow, Ready, Accumulated, AllGo;
      var before, a := p[..|p| - 1], p[|p| - 1];
      var t := OneByOne(e, s, before, actor, sod, note);
      GoesPrefix(e, s, p, actor, sod, note, id);
      assert Sids(p) == Sids(before) + [a.sid];
      assert forall sid :: sid in Sids(before) ==> sid in Sids(p);
      AllReady(e, s, before, actor, sod, note, id);
      UpdatesAccumulate(e, s, before, actor, sod, note, id);
      LastGoes(e, s, p, actor, sod, note, id);
      OneMore(e, s, t, Sids(before), a, actor, sod, note, id);
      GoneReady(e, s, t, a, actor, sod, id);
      assert multiset(Sids(p)) == multiset(Sids(before)) + multiset{a.sid};
      assert a.sid !in multiset(Sids(before));
    }
  }

  /** Column by column the row reads as one of two others. */
  ghost predicate Mixed(mid: Row, u: Row, v: Row) {
    forall name :: At(mid, name) == At(u, name) || At(mid, name) == At(v, name)
  }

  lemma HeldSet(s: State, sids: seq<nat>, values: Row, sid: nat, name: string)
    requires (forall p :: p in sids ==> p < |s.staging|) && HoldsSets(s, sids, values) && sid in sids
    requires name in SetsOf(s.staging[sid])
    ensures name in values && values[name] == SetsOf(s.staging[sid])[name]
  {
    hide SetsOf;
  }

  lemma HeldRest(s: State, sids: seq<nat>, before: Row, values: Row, name: string)
    requires (forall p :: p in sids ==> p < |s.staging|) && HoldsRest(s, sids, before, values)
    requires !Touched(s, sids, name)
    ensures At(values, name) == At(before, name) && (name in values <==> name in before)
  {
    hide SetsOf;
  }

  /** With some of the updates made, each column reads as before all of them or as after. */
  lemma Between(s: State, some: seq<nat>, all: seq<nat>, before: GoldenRow, mid: GoldenRow, after: GoldenRow)
    requires (forall sid :: sid in all ==> sid < |s.staging|) && forall sid :: sid in some ==> sid in all
    requires Accumulated(s, some, before, mid) && Accumulated(s, all, before, after)
    ensures Mixed(mid.values, before.values, after.values)
  {
    hide SetsOf, HoldsSets, HoldsRest;
    forall name
      ensures At(mid.values, name) == At(before.values, name) || At(mid.values, name) == At(after.values, name)
    {
      if Touched(s, some, name) {
        var sid :| sid in some && name in SetsOf(s.staging[sid]);
        HeldSet(s, some, mid.values, sid, name);
        HeldSet(s, all, after.values, sid, name);
      } else {
        HeldRest(s, some, before.values, mid.values, name);
      }
    }
  }

  /** A row between two acceptable ones is acceptable: the database looks at it column by column. */
  lemma MixedAcceptable(e: Entity, live: map<RecordId, GoldenRow>, before: map<RecordId, GoldenRow>,
                        after: map<RecordId, GoldenRow>, id: RecordId, mid: GoldenRow)
    requires GoldenSound(e, before) && GoldenSound(e, after) && id in before && id in after
    requires live.Keys == before.Keys == after.Keys
    requires forall other :: other in live && other != id ==> live[other] == before[other] == after[other]
    requires before[id].deleted == mid.deleted == after[id].deleted
    requires Mixed(mid.values, before[id].values, after[id].values)
    ensures Acceptable(e, live, id, mid)
  {
    hide Storable;
    forall a | a in e.attributes
      ensures a.required ==> !At(mid.values, a.name).Null?
      ensures Storable(a, At(mid.values, a.name))
    {
      assert ColumnsFit(e, before[id].values) && ColumnsFit(e, after[id].values);
    }
    forall other | other in live && other != id ensures !Clashes(e, mid, live[other]) {
      assert !Clashes(e, before[id], before[other]) && !Clashes(e, after[id], after[other]);
    }
  }

  /** The next update of another order goes through as well. */
  lemma NextGoes(e: Entity, s: State, p: seq<Attempt>, done: seq<Attempt>, a: Attempt, actor: string, sod: bool,
                 note: Option<string>, id: RecordId)
    requires GoldenSound(e, s.book.live) && id in s.book.live
    requires AllGo(e, s, p, actor, sod, note, id) && Disjoint(s, Sids(p))
    requires AllGo(e, s, done, actor, sod, note, id)
    requires (forall sid :: sid in Sids(done) ==> sid in Sids(p)) && a.sid in Sids(p) && a.sid !in Sids(done)
    ensures var v := ApproveVerdict(e, OneByOne(e, s, done, actor, sod, note), a.at, a.sid, actor, sod, a.newId);
      v.Granted? && v.change.Amend? && v.change.id == id
  {
    hide OneByOne, SetsOf, AllGo, Accumulated, ApproveVerdict, GoldenSound, Ready, Acceptable, Mixed, AmendedRow,
      Touched;
    var t, final := OneByOne(e, s, done, actor, sod, note), OneByOne(e, s, p, actor, sod, note);
    var sets := SetsOf(s.staging[a.sid]);
    var some := Sids(done) + [a.sid];
    assert forall sid :: sid in some ==> sid in Sids(p);
    DisjointSubset(s, some, Sids(p));
    DisjointSubset(s, Sids(done), Sids(p));
    AllReady(e, s, p, actor, sod, note, id);
    UpdatesAccumulate(e, s, p, actor, sod, note, id);
    UpdatesAccumulate(e, s, done, actor, sod, note, id);
    OthersStay(e, s, p, actor, sod, note, id);
    OthersStay(e, s, done, actor, sod, note, id);
    OneByOneSound(e, s, p, actor, sod, note);
    var mid := AmendedRow(t.book.live[id], a.at, sets, actor, a.sid);
    AmendedValues(t.book.live[id], a.at, sets, actor, a.sid);
    AccumulatedOneMore(s, Sids(done), a.sid, s.book.live[id], t.book.live[id], mid);
    Between(s, some, Sids(p), s.book.live[id], mid, final.book.live[id]);
    MixedAcceptable(e, t.book.live, s.book.live, final.book.live, id, mid);
    ReadyGoes(e, s, t, a, actor, sod, id);
  }

  lemma DisjointSubset(s: State, some: seq<nat>, all: seq<nat>)
    requires Disjoint(s, all) && forall sid :: sid in some ==> sid in all
    ensures Disjoint(s, some)
  {
  }

  /** If the updates go through in one order, they do in every order. */
  lemma {:induction false} EveryOrderGoes(e: Entity, s: State, p: seq<Attempt>, q: seq<Attempt>, n: nat, actor: string,
                                          sod: bool, note: Option<string>, id: RecordId)
    requires GoldenSound(e, s.book.live) && id in s.book.live
    requires AllGo(e, s, p, actor, sod, note, id) && Disjoint(s, Sids(p))
    requires multiset(Sids(p)) == multiset(Sids(q)) && n <= |q|
    ensures AllGo(e, s, q[..n], actor, sod, note, id)
  {
    hide OneByOne, SetsOf, AllGo, ApproveVerdict, GoldenSound, Disjoint, Ready;
    if n == 0 {
      NoneGo(e, s, actor, sod, note, id);
    } else {
      EveryOrderGoes(e, s, p, q, n - 1, actor, sod, note, id);
      var done, a := q[..n - 1], q[n - 1];
      assert q[..n] == done + [a];
      AllReady(e, s, p, actor, sod, note, id);
      assert Sids(q) == Sids(done) + [a.sid] + Sids(q[n..]);
      forall sid | sid in Sids(done) || sid == a.sid ensures sid in Sids(p) {
        assert sid in multiset(Sids(q)) && sid in multiset(Sids(p));
      }
      NotTwice(Sids(done), a.sid, Sids(q[n..]));
      NextGoes(e, s, p, done, a, actor, sod, note, id);
      OneMoreGoes(e, s, done, a, actor, sod, note, id);
    }
  }

  lemma NotTwice(before: seq<nat>, sid: nat, after: seq<nat>)
    requires multiset(before + [sid] + after)[sid] <= 1
    ensures sid !in before
  {
    assert multiset(before + [sid] + after) == multiset(before) + multiset{sid} + multiset(after);
    assert sid in before <==> sid in multiset(before);
  }

  lemma NoneGo(e: Entity, s: State, actor: string, sod: bool, note: Option<string>, id: RecordId)
    ensures AllGo(e, s, [], actor, sod, note, id)
  {
  }

  lemma OneMoreGoes(e: Entity, s: State, done: seq<Attempt>, a: Attempt, actor: string, sod: bool, note: Option<string>,
                    id: RecordId)
    requires AllGo(e, s, done, actor, sod, note, id)
    requires var v := ApproveVerdict(e, OneByOne(e, s, done, actor, sod, note), a.at, a.sid, actor, sod, a.newId);
      v.Granted? && v.change.Amend? && v.change.id == id
    ensures AllGo(e, s, done + [a], actor, sod, note, id)
  {
    hide ApproveVerdict, OneByOne;
    var all := done + [a];
    forall i | 0 <= i < |all| ensures Goes(e, s, all, actor, sod, note, id, i) {
      if i < |done| {
        assert all[..i] == done[..i];
        assert Goes(e, s, done, actor, sod, note, id, i);
      } else {
        assert all[..i] == done;
      }
    }
  }

  /**
   Order never matters. In every reachable state, if a list of approvals goes through as updates of
   one record that set pairwise disjoint columns, then the same rows in any other order all go
   through too, and leave the same values and version.
   */
  lemma OrderIrrelevant(e: Entity, events: seq<Event>, p: seq<Attempt>, q: seq<Attempt>, actor: string, sod: bool,
                        note: Option<string>, id: RecordId)
    requires var s := Run(e, events);
      id in s.book.live && Disjoint(s, Sids(p)) && AllGo(e, s, p, actor, sod, note, id)
    requires multiset(Sids(p)) == multiset(Sids(q))
    ensures var s := Run(e, events);
      var one, two := OneByOne(e, s, p, actor, sod, note).book.live, OneByOne(e, s, q, actor, sod, note).book.live;
      && AllGo(e, s, q, actor, sod, note, id)
      && id in one && id in two && one[id].values == two[id].values && one[id].version == two[id].version
  {
    hide OneByOne, SetsOf, AllGo, Run, GoldenSound, Disjoint, Accumulated;
    var s, a, b := Run(e, events), Sids(p), Sids(q);
    assert |a| == |multiset(a)| == |multiset(b)| == |b|;
    forall sid ensures sid in a <==> sid in b {
      assert sid in a <==> sid in multiset(a);
      assert sid in b <==> sid in multiset(b);
    }
    GoldenAlwaysSound(e, events);
    EveryOrderGoes(e, s, p, q, |q|, actor, sod, note, id);
    assert q[..|q|] == q;
    DisjointSubset(s, b, a);
    UpdatesAccumulate(e, s, p, actor, sod, note, id);
    UpdatesAccumulate(e, s, q, actor, sod, note, id);
    DisjointStaged(s, a);
    SameCarried(s, a, b, s.book.live[id], OneByOne(e, s, p, actor, sod, note).book.live[id],
                OneByOne(e, s, q, actor, sod, note).book.live[id]);
  }

  lemma DisjointStaged(s: State, sids: seq<nat>)
    requires Disjoint(s, sids)
    ensures forall sid :: sid in sids ==> sid < |s.staging|
  {
  }

  lemma SameCarried(s: State, a: seq<nat>, b: seq<nat>, before: GoldenRow, one: GoldenRow, two: GoldenRow)
    requires |a| == |b| && forall sid :: sid in a <==> sid in b
    requires forall sid :: sid in a ==> sid < |s.staging|
    requires Accumulated(s, a, before, one) && Accumulated(s, b, before, two)
    ensures one.values == two.values && one.version == two.version
  {
    hide SetsOf, HoldsSets, HoldsRest;
    forall name ensures name in one.values <==> name in two.values
      ensures name in one.values && name in two.values ==> one.values[name] == two.values[name]
    {
      if Touched(s, a, name) {
        var sid :| sid in a && name in SetsOf(s.staging[sid]);
        HeldSet(s, a, one.values, sid, name);
        HeldSet(s, b, two.values, sid, name);
      } else {
        assert !Touched(s, b, name);
        HeldRest(s, a, before.values, one.values, name);
        HeldRest(s, b, before.values, two.values, name);
      }
    }
  }
}

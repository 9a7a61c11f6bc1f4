/**
 Why an approval ends in a database error, read off the staged row, and what that makes of a
 bulk approval (app/services/pipeline.py `apply_staging_to_live`, app/api/v1/stewardship.py
 `bulk_approve`).
 */
module BulkCauses {
  import opened Common
  import opened Values
  import opened EntityModel
  import opened Validation
  import opened Ledger
  import opened Matching
  import opened Pipeline
  import opened Conservation
  import opened GoldenRules
  import opened Bulk

  // ---------------------------------------------------------------- one approval

  /** The review itself has no objection. */
  predicate Eligible(r: StagingRow, actor: string, sod: bool) {
    r.status != Applied && r.status != Rejected && r.isValid && !(sod && BySelf(r, actor))
  }

  /** No golden tier could take the row: a DELETE of nothing, or a creation that lacks a required column. */
  predicate Doomed(e: Entity, r: StagingRow) {
    r.target.None? && (r.op.OpDelete? || !RequiredPresent(e, r, Names(e.attributes)))
  }

  /** A unique value of the row to be written is taken by another active record. */
  ghost predicate TakesUnique(e: Entity, live: map<RecordId, GoldenRow>, at: Time, r: StagingRow, sid: nat,
                              actor: string, newId: RecordId) {
    !r.op.OpDelete? &&
    if r.target.Some? then
      && r.target.value in live && SetsOf(r) != map[]
      && ClashesWithAnother(e, live, r.target.value, AmendedRow(live[r.target.value], at, SetsOf(r), actor, sid))
    else ClashesWithAnother(e, live, newId, FreshRow(at, Insert(newId, r.values, actor, sid, r.source)))
  }

  /** In every reachable state these are the two ways an approval runs into the database, and the only ones. */
  lemma ApprovalViolates(e: Entity, events: seq<Event>, at: Time, sid: nat, actor: string, sod: bool, newId: RecordId)
    requires WellFormed(e) && newId !in Known(Run(e, events).book)
    ensures var s := Run(e, events);
      ApproveVerdict(e, s, at, sid, actor, sod, newId) == Violated
      <==> sid < |s.staging| && Eligible(s.staging[sid], actor, sod)
           && (Doomed(e, s.staging[sid]) || TakesUnique(e, s.book.live, at, s.staging[sid], sid, actor, newId))
  {
    hide Clashes, Run, SetsOf, BySelf, RowSound, GoldenSound, ColumnsFit, AmendedRow, RequiredPresent;
    var s := Run(e, events);
    StagedRowsSound(e, events);
    GoldenAlwaysSound(e, events);
    if sid < |s.staging| && s.staging[sid].isValid {
      var r := s.staging[sid];
      assert RowSound(e, r);
      if r.target.None? {
        InsertFitsIff(e, r);
      } else if r.target.value in s.book.live {
        FitsAlone(e, s.book.live, r.target.value);
        AmendFits(e, r, s.book.live[r.target.value]);
        AmendedFits(e, s.book.live[r.target.value], at, SetsOf(r), actor, sid);
      }
    }
  }

  lemma InsertFitsIff(e: Entity, r: StagingRow)
    requires RowSound(e, r)
    ensures ColumnsFit(e, r.values) <==> RequiredPresent(e, r, Names(e.attributes))
  {
    hide Storable;
  }

  lemma AmendedFits(e: Entity, row: GoldenRow, at: Time, sets: Row, actor: string, sid: nat)
    requires ColumnsFit(e, row.values + sets)
    ensures ColumnsFit(e, AmendedRow(row, at, sets, actor, sid).values)
  {
    assert sets == map[] ==> row.values + sets == row.values;
  }

  // ---------------------------------------------------------------- which rows are doomed

  /** A DELETE that matched nothing keeps its error until somebody edits the row. */
  ghost predicate DeletesFaulty(staging: seq<StagingRow>) {
    forall i :: 0 <= i < |staging| && staging[i].op.OpDelete? && staging[i].target.None? ==>
      staging[i].editedBy.Some? || !staging[i].isValid
  }

  lemma DeletesFaultyStep(e: Entity, s: State, ev: Event)
    requires DeletesFaulty(s.staging)
    ensures DeletesFaulty(Next(e, s, ev).staging)
  {
    hide Validated, ChangeFor, Apply, Stageable, PromoteRows, Assess, PendingRows;
    if ev.step.DoPromote? {
      var s', rows := Next(e, s, ev), Take(PendingRows(s.landing, ev.step.ids), ev.step.limit);
      PromotionStages(e, s, ev.at, rows, |s.batches|, ev.step.pick);
      forall i | |s.staging| <= i < |s'.staging| && s'.staging[i].op.OpDelete? && s'.staging[i].target.None?
        ensures !s'.staging[i].isValid
      {
        var l := s'.staging[i].landingId;
        UnmatchedDeleteFaulty(e, s.book.live, ev.at, s.landing[l], l, |s.batches|, ev.step.pick);
      }
    }
  }

  lemma UnmatchedDeleteFaulty(e: Entity, live: map<RecordId, GoldenRow>, now: Time, r: LandingRow, i: nat, batch: nat,
                              pick: Chooser)
    requires Assess(e, live, now, r, i, batch, pick).Stage?
    ensures var row := Assess(e, live, now, r, i, batch, pick).row;
      row.op.OpDelete? && row.target.None? ==> Fault("_record", NotFound) in row.faults && !row.isValid
  {
    hide Validated, Resolve, Filled, Stageable, MatchKey;
  }

  lemma {:induction false} DeletesStayFaulty(e: Entity, events: seq<Event>)
    ensures DeletesFaulty(Run(e, events).staging)
  {
    if events != [] {
      hide Next;
      DeletesStayFaulty(e, events[..|events| - 1]);
      DeletesFaultyStep(e, Run(e, events[..|events| - 1]), events[|events| - 1]);
    }
  }

  /** A valid doomed row is a DELETE whose error an edit removed, or an unedited UPDATE that matched nothing. */
  lemma DoomedKinds(e: Entity, events: seq<Event>, sid: nat)
    requires WellFormed(e) && sid < |Run(e, events).staging|
    requires var r := Run(e, events).staging[sid]; r.isValid && Doomed(e, r)
    ensures var r := Run(e, events).staging[sid];
      if r.op.OpDelete? then r.editedBy.Some? else r.op.OpUpdate? && r.editedBy.None?
  {
    hide Run, RequiredPresent;
    StagedRowsSound(e, events);
    DeletesStayFaulty(e, events);
    var r := Run(e, events).staging[sid];
    assert RowSound(e, r);
  }

  // ---------------------------------------------------------------- single approvals as a run

  /** The same approvals as events of a run. */
  function AsEvents(attempts: seq<Attempt>, actor: string, sod: bool, note: Option<string>): seq<Event> {
    seq(|attempts|, i requires 0 <= i < |attempts| =>
      Event(attempts[i].at, DoApprove(attempts[i].sid, actor, sod, note, attempts[i].newId)))
  }

  lemma {:induction false} OneByOneIsRun(e: Entity, events: seq<Event>, attempts: seq<Attempt>, actor: string,
                                         sod: bool, note: Option<string>)
    ensures OneByOne(e, Run(e, events), attempts, actor, sod, note)
         == Run(e, events + AsEvents(attempts, actor, sod, note))
  {
    if attempts == [] {
      assert events + AsEvents([], actor, sod, note) == events;
    } else {
      hide Approve, Next;
      var before := attempts[..|attempts| - 1];
      OneByOneIsRun(e, events, before, actor, sod, note);
      var all := events + AsEvents(attempts, actor, sod, note);
      assert all[..|all| - 1] == events + AsEvents(before, actor, sod, note);
      NextApproves(e, OneByOne(e, Run(e, events), before, actor, sod, note), all[|all| - 1]);
    }
  }

  /** Approvals leave a staging row alone until it is applied. */
  lemma {:induction false} RowsUntilApplied(e: Entity, s: State, attempts: seq<Attempt>, actor: string, sod: bool,
                                            note: Option<string>)
    ensures var staging := OneByOne(e, s, attempts, actor, sod, note).staging;
      && |staging| == |s.staging|
      && forall i :: 0 <= i < |staging| ==> staging[i] == s.staging[i] || staging[i].status == Applied
  {
    if attempts != [] {
      hide ApproveVerdict, Apply;
      RowsUntilApplied(e, s, attempts[..|attempts| - 1], actor, sod, note);
    }
  }

  /** Generated ids are new. */
  ghost predicate FreshIds(b: Book, attempts: seq<Attempt>) {
    && (forall i :: 0 <= i < |attempts| ==> attempts[i].newId !in Known(b))
    && (forall i, j :: 0 <= i < j < |attempts| ==> attempts[i].newId != attempts[j].newId)
  }

  lemma KnownBy(b: Book, at: Time, c: Change)
    ensures Known(Apply(b, at, c)) <= Known(b) + {c.id}
    ensures !c.Insert? ==> Known(Apply(b, at, c)) <= Known(b)
  {
    if Enabled(b, c) {
      KnownAfter(b, at, c);
    }
  }

  lemma ApproveKnows(e: Entity, s: State, a: Attempt, actor: string, sod: bool, note: Option<string>)
    ensures Known(Approve(e, s, a.at, a.sid, actor, sod, note, a.newId).book) <= Known(s.book) + {a.newId}
  {
    hide Known, Acceptable, SetsOf, BySelf, Apply;
    var v := ApproveVerdict(e, s, a.at, a.sid, actor, sod, a.newId);
    if v.Granted? {
      KnownBy(s.book, a.at, v.change);
    }
  }

  lemma {:induction false} StillFresh(e: Entity, s: State, attempts: seq<Attempt>, n: nat, actor: string, sod: bool,
                                      note: Option<string>)
    requires FreshIds(s.book, attempts) && n <= |attempts|
    ensures forall i :: n <= i < |attempts| ==>
        attempts[i].newId !in Known(OneByOne(e, s, attempts[..n], actor, sod, note).book)
  {
    if n > 0 {
      hide Known, Approve;
      StillFresh(e, s, attempts, n - 1, actor, sod, note);
      assert attempts[..n][..n - 1] == attempts[..n - 1];
      ApproveKnows(e, OneByOne(e, s, attempts[..n - 1], actor, sod, note), attempts[n - 1], actor, sod, note);
    }
  }

  // ---------------------------------------------------------------- where unique values come from

  /** The columns the row would bring to its golden record. */
  function Brings(r: StagingRow): Row {
    if r.op.OpDelete? then map[] else if r.target.Some? then SetsOf(r) else r.values
  }

  /** The i-th approval went through and was about the record, and its row brought the value. */
  predicate Brought(e: Entity, s: State, attempts: seq<Attempt>, actor: string, sod: bool, note: Option<string>, i: nat,
                    id: RecordId, name: string, v: Value)
    requires i < |attempts|
  {
    var a := attempts[i];
    var verdict := ApproveVerdict(e, OneByOne(e, s, attempts[..i], actor, sod, note), a.at, a.sid, actor, sod, a.newId);
    verdict.Granted? && verdict.change.id == id && a.sid < |s.staging| && At(Brings(s.staging[a.sid]), name) == v
  }

  predicate HeldBefore(s: State, id: RecordId, name: string, v: Value) {
    id in s.book.live && !s.book.live[id].deleted && At(s.book.live[id].values, name) == v
  }

  /** The record's value was there before the approvals, or one of them brought it. */
  ghost predicate Explained(e: Entity, s: State, attempts: seq<Attempt>, actor: string, sod: bool, note: Option<string>,
                            id: RecordId, name: string, v: Value) {
    || HeldBefore(s, id, name, v)
    || exists i :: 0 <= i < |attempts| && Brought(e, s, attempts, actor, sod, note, i, id, name, v)
  }

  ghost predicate AllExplained(e: Entity, s: State, attempts: seq<Attempt>, actor: string, sod: bool,
                               note: Option<string>) {
    var live := OneByOne(e, s, attempts, actor, sod, note).book.live;
    forall id, name :: id in live && !live[id].deleted ==>
      Explained(e, s, attempts, actor, sod, note, id, name, At(live[id].values, name))
  }

  lemma ExplainedLater(e: Entity, s: State, attempts: seq<Attempt>, actor: string, sod: bool, note: Option<string>,
                       id: RecordId, name: string, v: Value)
    requires attempts != [] && Explained(e, s, attempts[..|attempts| - 1], actor, sod, note, id, name, v)
    ensures Explained(e, s, attempts, actor, sod, note, id, name, v)
  {
    hide ApproveVerdict, OneByOne, Brings;
    var before := attempts[..|attempts| - 1];
    if !HeldBefore(s, id, name, v) {
      var i :| 0 <= i < |before| && Brought(e, s, before, actor, sod, note, i, id, name, v);
      assert before[..i] == attempts[..i];
      assert Brought(e, s, attempts, actor, sod, note, i, id, name, v);
    }
  }

  /** What one approval makes of an active record: as before, or with the columns its row brings. */
  lemma ApprovalBrings(e: Entity, s: State, a: Attempt, actor: string, sod: bool, note: Option<string>, id: RecordId,
                       name: string)
    requires var live := Approve(e, s, a.at, a.sid, actor, sod, note, a.newId).book.live;
      id in live && !live[id].deleted
    ensures var live, v := Approve(e, s, a.at, a.sid, actor, sod, note, a.newId).book.live,
                           ApproveVerdict(e, s, a.at, a.sid, actor, sod, a.newId);
      || (id in s.book.live && !s.book.live[id].deleted
          && At(live[id].values, name) == At(s.book.live[id].values, name))
      || (v.Granted? && v.change.id == id && a.sid < |s.staging| && s.staging[a.sid].status != Applied
          && At(live[id].values, name) == At(Brings(s.staging[a.sid]), name))
  {
    hide Acceptable, SetsOf, BySelf;
  }

  lemma {:induction false} ValuesExplained(e: Entity, s: State, attempts: seq<Attempt>, actor: string, sod: bool,
                                           note: Option<string>)
    ensures AllExplained(e, s, attempts, actor, sod, note)
  {
    if attempts != [] {
      hide Approve, ApproveVerdict, Brings;
      var n := |attempts| - 1;
      var before, a := attempts[..n], attempts[n];
      var t, t' := OneByOne(e, s, before, actor, sod, note), OneByOne(e, s, attempts, actor, sod, note);
      ValuesExplained(e, s, before, actor, sod, note);
      RowsUntilApplied(e, s, before, actor, sod, note);
      forall id, name | id in t'.book.live && !t'.book.live[id].deleted
        ensures Explained(e, s, attempts, actor, sod, note, id, name, At(t'.book.live[id].values, name))
      {
        ApprovalBrings(e, t, a, actor, sod, note, id, name);
        var v := At(t'.book.live[id].values, name);
        if id in t.book.live && !t.book.live[id].deleted && v == At(t.book.live[id].values, name) {
          ExplainedLater(e, s, attempts, actor, sod, note, id, name, v);
        } else {
          assert Brought(e, s, attempts, actor, sod, note, n, id, name, v);
        }
      }
    } else {
      hide Brings, ApproveVerdict;
      forall id, name | id in s.book.live && !s.book.live[id].deleted
        ensures Explained(e, s, attempts, actor, sod, note, id, name, At(s.book.live[id].values, name))
      {
        assert HeldBefore(s, id, name, At(s.book.live[id].values, name));
      }
    }
  }

  // ---------------------------------------------------------------- rows that do not contend

  /** No other active golden record holds the value. */
  ghost predicate FreeInLive(s: State, r: StagingRow, name: string, v: Value) {
    forall id :: id in s.book.live && !s.book.live[id].deleted && r.target != Some(id) ==>
        At(s.book.live[id].values, name) != v
  }

  /** No other row of the list brings the value to another record. */
  predicate FreeAmong(s: State, sids: set<nat>, sid: nat, name: string, v: Value)
    requires sid < |s.staging|
  {
    forall other :: other in sids && other < |s.staging| && other != sid
      && (s.staging[sid].target.None? || s.staging[other].target != s.staging[sid].target)
      ==> At(Brings(s.staging[other]), name) != v
  }

  ghost predicate Free(s: State, sids: set<nat>, sid: nat, name: string)
    requires sid < |s.staging|
  {
    var v := At(Brings(s.staging[sid]), name);
    !v.Null? ==> FreeInLive(s, s.staging[sid], name, v) && FreeAmong(s, sids, sid, name, v)
  }

  /** The unique values the rows bring are taken neither in the golden tier nor by each other. */
  ghost predicate Uncontended(e: Entity, s: State, sids: set<nat>) {
    forall sid, a :: sid in sids && sid < |s.staging| && a in e.attributes && a.unique ==> Free(s, sids, sid, a.name)
  }

  predicate Carries(s: State, sids: set<nat>, sid: nat, id: RecordId, name: string, v: Value) {
    && sid in sids && sid < |s.staging| && At(Brings(s.staging[sid]), name) == v
    && (s.staging[sid].target.None? || s.staging[sid].target == Some(id))
  }

  /** Where a record's value comes from: from before, from an earlier approval, or from the row at hand. */
  datatype Origin = FromBefore | FromApproval(i: nat) | FromRow

  predicate Comes(e: Entity, s: State, done: seq<Attempt>, actor: string, sod: bool, note: Option<string>,
                  sids: set<nat>, sid: nat, o: Origin, id: RecordId, name: string, v: Value) {
    match o
    case FromBefore => HeldBefore(s, id, name, v)
    case FromApproval(i) => i < |done| && Brought(e, s, done, actor, sod, note, i, id, name, v)
    case FromRow => Carries(s, sids, sid, id, name, v)
  }

  /** A row that went through is applied from then on. */
  lemma {:induction false} AppliedAfter(e: Entity, s: State, attempts: seq<Attempt>, i: nat, actor: string, sod: bool,
                                        note: Option<string>)
    requires i < |attempts|
    requires var a := attempts[i];
      ApproveVerdict(e, OneByOne(e, s, attempts[..i], actor, sod, note), a.at, a.sid, actor, sod, a.newId).Granted?
    ensures var t := OneByOne(e, s, attempts, actor, sod, note);
      attempts[i].sid < |t.staging| && t.staging[attempts[i].sid].status == Applied
    decreases |attempts|
  {
    hide ChangeFor, Apply, BySelf;
    var n := |attempts| - 1;
    if i < n {
      assert attempts[..n][..i] == attempts[..i];
      AppliedAfter(e, s, attempts[..n], i, actor, sod, note);
    }
  }

  lemma BroughtCarries(e: Entity, s: State, done: seq<Attempt>, actor: string, sod: bool, note: Option<string>,
                       sids: set<nat>, i: nat, id: RecordId, name: string, v: Value)
    requires i < |done| && (GrantedAt(e, s, done, actor, sod, note, i) ==> done[i].sid in sids)
    requires Brought(e, s, done, actor, sod, note, i, id, name, v) && !v.Null?
    ensures Carries(s, sids, done[i].sid, id, name, v)
  {
    hide Acceptable, SetsOf, BySelf, OneByOne;
    RowsUntilApplied(e, s, done[..i], actor, sod, note);
  }

  /** Two approvals about different records were of different rows. */
  lemma BroughtOnce(e: Entity, s: State, done: seq<Attempt>, actor: string, sod: bool, note: Option<string>, i: nat,
                    j: nat, id: RecordId, other: RecordId, name: string, v: Value)
    requires i < j < |done|
    requires Brought(e, s, done, actor, sod, note, i, id, name, v)
    requires Brought(e, s, done, actor, sod, note, j, other, name, v)
    ensures done[i].sid != done[j].sid
  {
    hide Brings, ChangeFor, BySelf, OneByOne;
    assert done[..j][..i] == done[..i];
    AppliedAfter(e, s, done[..j], i, actor, sod, note);
  }

  lemma CarriersDiffer(e: Entity, s: State, sids: set<nat>, a: Attribute, sid: nat, other: nat, id: RecordId,
                       id': RecordId, v: Value)
    requires Uncontended(e, s, sids) && a in e.attributes && a.unique && !v.Null? && id != id' && sid != other
    requires Carries(s, sids, sid, id, a.name, v)
    ensures !Carries(s, sids, other, id', a.name, v)
  {
    hide Brings;
    assert Free(s, sids, sid, a.name);
  }

  lemma HolderDiffers(e: Entity, s: State, sids: set<nat>, a: Attribute, sid: nat, id: RecordId, id': RecordId,
                      v: Value)
    requires Uncontended(e, s, sids) && a in e.attributes && a.unique && !v.Null? && id != id'
    requires sid in sids && sid < |s.staging| && HeldBefore(s, id, a.name, v)
    ensures !Carries(s, sids, sid, id', a.name, v)
  {
    hide Brings;
    assert Free(s, sids, sid, a.name);
  }

  lemma HoldersDiffer(e: Entity, s: State, a: Attribute, id: RecordId, id': RecordId, v: Value)
    requires GoldenSound(e, s.book.live) && a in e.attributes && a.unique && !v.Null? && id != id'
    requires HeldBefore(s, id, a.name, v)
    ensures !HeldBefore(s, id', a.name, v)
  {
    if HeldBefore(s, id', a.name, v) {
      assert Clashes(e, s.book.live[id], s.book.live[id']);
      assert false;
    }
  }

  /** Only rows of the set went through. */
  ghost predicate GrantedAmong(e: Entity, s: State, done: seq<Attempt>, actor: string, sod: bool, note: Option<string>,
                               sids: set<nat>) {
    forall i :: 0 <= i < |done| && GrantedAt(e, s, done, actor, sod, note, i) ==> done[i].sid in sids
  }

  /** Everything the cases below have in common: a unique value, and a row of the list that is still open. */
  ghost predicate AtTurn(e: Entity, s: State, done: seq<Attempt>, actor: string, sod: bool, note: Option<string>,
                         sids: set<nat>, sid: nat, a: Attribute, v: Value) {
    && GoldenSound(e, s.book.live) && Uncontended(e, s, sids) && a in e.attributes && a.unique && !v.Null?
    && GrantedAmong(e, s, done, actor, sod, note, sids) && sid in sids && sid < |s.staging|
    && var staging := OneByOne(e, s, done, actor, sod, note).staging;
      sid < |staging| && staging[sid].status != Applied
  }

  lemma HeldOnce(e: Entity, s: State, done: seq<Attempt>, actor: string, sod: bool, note: Option<string>,
                 sids: set<nat>, sid: nat, a: Attribute, o: Origin, id: RecordId, id': RecordId, v: Value)
    requires AtTurn(e, s, done, actor, sod, note, sids, sid, a, v) && id != id'
    requires Comes(e, s, done, actor, sod, note, sids, sid, o, id, a.name, v)
    ensures !HeldBefore(s, id', a.name, v)
  {
    hide Uncontended, GoldenSound, OneByOne, Brought, Carries, HeldBefore, GrantedAt;
    if HeldBefore(s, id', a.name, v) {
      match o {
        case FromBefore => HoldersDiffer(e, s, a, id, id', v);
        case FromApproval(i) =>
          BroughtCarries(e, s, done, actor, sod, note, sids, i, id, a.name, v);
          CarriesStaged(s, sids, done[i].sid, id, a.name, v);
          HolderDiffers(e, s, sids, a, done[i].sid, id', id, v);
        case FromRow => HolderDiffers(e, s, sids, a, sid, id', id, v);
      }
    }
  }

  lemma CarriesStaged(s: State, sids: set<nat>, sid: nat, id: RecordId, name: string, v: Value)
    requires Carries(s, sids, sid, id, name, v)
    ensures sid in sids && sid < |s.staging|
  {
  }

  lemma BroughtAlone(e: Entity, s: State, done: seq<Attempt>, actor: string, sod: bool, note: Option<string>,
                     sids: set<nat>, sid: nat, a: Attribute, o: Origin, j: nat, id: RecordId, id': RecordId, v: Value)
    requires AtTurn(e, s, done, actor, sod, note, sids, sid, a, v) && id != id' && j < |done|
    requires Comes(e, s, done, actor, sod, note, sids, sid, o, id, a.name, v)
    ensures !Brought(e, s, done, actor, sod, note, j, id', a.name, v)
  {
    hide Uncontended, GoldenSound, OneByOne, ApproveVerdict, Carries, HeldBefore, Brings, GrantedAt;
    if Brought(e, s, done, actor, sod, note, j, id', a.name, v) {
      BroughtCarries(e, s, done, actor, sod, note, sids, j, id', a.name, v);
      CarriesStaged(s, sids, done[j].sid, id', a.name, v);
      match o {
        case FromBefore => HolderDiffers(e, s, sids, a, done[j].sid, id, id', v);
        case FromApproval(i) =>
          BroughtCarries(e, s, done, actor, sod, note, sids, i, id, a.name, v);
          if i < j {
            BroughtOnce(e, s, done, actor, sod, note, i, j, id, id', a.name, v);
          } else if j < i {
            BroughtOnce(e, s, done, actor, sod, note, j, i, id', id, a.name, v);
          }
          if i != j {
            CarriersDiffer(e, s, sids, a, done[i].sid, done[j].sid, id, id', v);
          }
        case FromRow =>
          AppliedAfter(e, s, done, j, actor, sod, note);
          CarriersDiffer(e, s, sids, a, sid, done[j].sid, id, id', v);
      }
    }
  }

  /** A unique value comes to one record only, wherever it comes from. */
  lemma NobodyElse(e: Entity, s: State, done: seq<Attempt>, actor: string, sod: bool, note: Option<string>,
                   sids: set<nat>, sid: nat, a: Attribute, o: Origin, id: RecordId, id': RecordId, v: Value)
    requires AtTurn(e, s, done, actor, sod, note, sids, sid, a, v) && id != id'
    requires Comes(e, s, done, actor, sod, note, sids, sid, o, id, a.name, v)
    ensures !Explained(e, s, done, actor, sod, note, id', a.name, v)
  {
    hide AtTurn, Comes, Brought, HeldBefore;
    HeldOnce(e, s, done, actor, sod, note, sids, sid, a, o, id, id', v);
    forall j | 0 <= j < |done| ensures !Brought(e, s, done, actor, sod, note, j, id', a.name, v) {
      BroughtAlone(e, s, done, actor, sod, note, sids, sid, a, o, j, id, id', v);
    }
  }

  /** The column of the row about to be written: as the record had it, or as the staged row brings it. */
  lemma RowOrigin(e: Entity, s: State, done: seq<Attempt>, actor: string, sod: bool, note: Option<string>,
                  sids: set<nat>, sid: nat, id: RecordId, name: string, values: Row) returns (o: Origin)
    requires sid in sids && sid < |s.staging| && !s.staging[sid].op.OpDelete?
    requires var r, live := s.staging[sid], OneByOne(e, s, done, actor, sod, note).book.live;
      if r.target.None? then values == r.values
      else r.target == Some(id) && id in live && !live[id].deleted && values == live[id].values + SetsOf(r)
    ensures Comes(e, s, done, actor, sod, note, sids, sid, o, id, name, At(values, name))
  {
    hide SetsOf, OneByOne, Brought, HeldBefore;
    ValuesExplained(e, s, done, actor, sod, note);
    var r, v := s.staging[sid], At(values, name);
    if r.target.None? || name in SetsOf(r) {
      return FromRow;
    }
    assert v == At(OneByOne(e, s, done, actor, sod, note).book.live[id].values, name);
    if HeldBefore(s, id, name, v) {
      return FromBefore;
    }
    var i :| 0 <= i < |done| && Brought(e, s, done, actor, sod, note, i, id, name, v);
    return FromApproval(i);
  }

  // ---------------------------------------------------------------- the bulk call

  /** Among rows that do not contend, no unique value is taken when a row's turn comes. */
  lemma TurnIsFree(e: Entity, s: State, done: seq<Attempt>, actor: string, sod: bool, note: Option<string>,
                   sids: set<nat>, sid: nat, at: Time, newId: RecordId)
    requires GoldenSound(e, s.book.live) && Uncontended(e, s, sids) && sid in sids && sid < |s.staging|
    requires GrantedAmong(e, s, done, actor, sod, note, sids)
    requires var staging := OneByOne(e, s, done, actor, sod, note).staging;
      sid < |staging| && staging[sid].status != Applied
    ensures !TakesUnique(e, OneByOne(e, s, done, actor, sod, note).book.live, at, s.staging[sid], sid, actor, newId)
  {
    hide SetsOf, OneByOne, Uncontended, GoldenSound, Comes, Explained, GrantedAmong;
    var r, live := s.staging[sid], OneByOne(e, s, done, actor, sod, note).book.live;
    if TakesUnique(e, live, at, r, sid, actor, newId) {
      var id := if r.target.Some? then r.target.value else newId;
      var row :=
        if r.target.Some? then AmendedRow(live[id], at, SetsOf(r), actor, sid)
        else FreshRow(at, Insert(newId, r.values, actor, sid, r.source));
      var other :| other in live && other != id && Clashes(e, row, live[other]);
      var a :| a in e.attributes && a.unique && !At(row.values, a.name).Null?
          && At(row.values, a.name) == At(live[other].values, a.name);
      var v := At(row.values, a.name);
      var o := RowOrigin(e, s, done, actor, sod, note, sids, sid, id, a.name, row.values);
      ValuesExplained(e, s, done, actor, sod, note);
      NobodyElse(e, s, done, actor, sod, note, sids, sid, a, o, id, other, v);
    }
  }

  /** A row that is to fail whatever happens. */
  predicate Fails(e: Entity, s: State, sid: nat, actor: string, sod: bool) {
    sid < |s.staging| && Eligible(s.staging[sid], actor, sod) && Doomed(e, s.staging[sid])
  }

  /** The verdict at a row's turn, in terms of the state that its turn finds. */
  lemma TurnVerdict(e: Entity, events: seq<Event>, attempts: seq<Attempt>, n: nat, actor: string, sod: bool,
                    note: Option<string>)
    requires WellFormed(e) && FreshIds(Run(e, events).book, attempts) && n < |attempts|
    ensures var a, t := attempts[n], OneByOne(e, Run(e, events), attempts[..n], actor, sod, note);
      Violates(e, Run(e, events), attempts, actor, sod, note, n)
      <==> a.sid < |t.staging| && Eligible(t.staging[a.sid], actor, sod)
           && (|| Doomed(e, t.staging[a.sid])
               || TakesUnique(e, t.book.live, a.at, t.staging[a.sid], a.sid, actor, a.newId))
  {
    hide Run, OneByOne, ApproveVerdict, Eligible, Doomed, TakesUnique, Known;
    OneByOneIsRun(e, events, attempts[..n], actor, sod, note);
    StillFresh(e, Run(e, events), attempts, n, actor, sod, note);
    ApprovalViolates(e, events + AsEvents(attempts[..n], actor, sod, note), attempts[n].at, attempts[n].sid, actor, sod,
                     attempts[n].newId);
  }

  /** A row that is to fail stays as it is: none of the approvals gets through it. */
  lemma {:induction false} FailingStays(e: Entity, events: seq<Event>, attempts: seq<Attempt>, n: nat, sid: nat,
                                        actor: string, sod: bool, note: Option<string>)
    requires WellFormed(e) && FreshIds(Run(e, events).book, attempts) && n <= |attempts|
    requires Fails(e, Run(e, events), sid, actor, sod)
    ensures var t := OneByOne(e, Run(e, events), attempts[..n], actor, sod, note);
      sid < |t.staging| && t.staging[sid] == Run(e, events).staging[sid]
  {
    hide Run, FreshIds, Eligible, Doomed, TakesUnique, ApproveVerdict, Approve;
    if n > 0 {
      FailingStays(e, events, attempts, n - 1, sid, actor, sod, note);
      assert attempts[..n][..n - 1] == attempts[..n - 1];
      TurnVerdict(e, events, attempts, n - 1, actor, sod, note);
      OnlyGrantedChanges(e, OneByOne(e, Run(e, events), attempts[..n - 1], actor, sod, note), attempts[n - 1], sid,
                         actor, sod, note);
    }
  }

  lemma OnlyGrantedChanges(e: Entity, s: State, a: Attempt, sid: nat, actor: string, sod: bool, note: Option<string>)
    requires sid < |s.staging| && (a.sid == sid ==> !ApproveVerdict(e, s, a.at, a.sid, actor, sod, a.newId).Granted?)
    ensures var t := Approve(e, s, a.at, a.sid, actor, sod, note, a.newId);
      sid < |t.staging| && t.staging[sid] == s.staging[sid]
  {
    hide ChangeFor, Apply, BySelf;
  }

  // ---------------------------------------------------------------- which rows can still go through

  /** Staging rows point to records that exist or existed. */
  ghost predicate TargetsKnown(staging: seq<StagingRow>, b: Book) {
    forall i :: 0 <= i < |staging| && staging[i].target.Some? ==> staging[i].target.value in Known(b)
  }

  lemma ResolvedIsLive(e: Entity, live: map<RecordId, GoldenRow>, values: Row, target: Target, op: Operation,
                       pick: Chooser)
    ensures var r := Resolve(e, live, values, target, op, pick);
      r.Resolved? && r.target.Some? ==> r.target.value in live
  {
    hide HasAll, Selected, SameBusinessKey, SameProbe;
    var found, probed := ByBusinessKey(e, live, values), ByMatchKey(e, live, values);
    if found != {} {
      assert pick(found) in found;
    }
    if probed != {} {
      assert pick(probed) in probed;
    }
  }

  lemma AssessedTarget(e: Entity, live: map<RecordId, GoldenRow>, now: Time, r: LandingRow, i: nat, batch: nat,
                       pick: Chooser)
    requires Assess(e, live, now, r, i, batch, pick).Stage?
    ensures var row := Assess(e, live, now, r, i, batch, pick).row; row.target.Some? ==> row.target.value in live
  {
    hide Validated, Resolve, Filled, Stageable, MatchKey;
    ResolvedIsLive(e, live, Validated(e, r.payload, Partial(r.op)).values, r.target, r.op, pick);
  }

  lemma KnownKept(e: Entity, s: State, ev: Event)
    ensures Known(s.book) <= Known(Next(e, s, ev).book)
  {
    hide Known, PromoteRows, PendingRows, EditVerdict, Receive, ApproveVerdict, Apply;
    if ev.step.DoApprove? {
      var v := ApproveVerdict(e, s, ev.at, ev.step.sid, ev.step.actor, ev.step.sod, ev.step.newId);
      if v.Granted? {
        HistoryGrows(s.book, ev.at, v.change);
      }
    }
  }

  lemma TargetsKnownStep(e: Entity, s: State, ev: Event)
    requires TargetsKnown(s.staging, s.book)
    ensures TargetsKnown(Next(e, s, ev).staging, Next(e, s, ev).book)
  {
    hide Known, PromoteRows, PendingRows, Assess, Next;
    var s' := Next(e, s, ev);
    KnownKept(e, s, ev);
    if ev.step.DoPromote? {
      var rows := Take(PendingRows(s.landing, ev.step.ids), ev.step.limit);
      NextPromotes(e, s, ev);
      PromotionStages(e, s, ev.at, rows, |s.batches|, ev.step.pick);
      forall i | |s.staging| <= i < |s'.staging| && s'.staging[i].target.Some?
        ensures s'.staging[i].target.value in Known(s'.book)
      {
        var l := s'.staging[i].landingId;
        AssessedTarget(e, s.book.live, ev.at, s.landing[l], l, |s.batches|, ev.step.pick);
        LiveIsKnown(s.book, s'.staging[i].target.value);
      }
    } else if ev.step.DoWrite? {
      NextWrites(e, s, ev);
    } else {
      ReviewKeepsOrigins(e, s, ev);
    }
  }

  lemma NextPromotes(e: Entity, s: State, ev: Event)
    requires ev.step.DoPromote?
    ensures var rows := Take(PendingRows(s.landing, ev.step.ids), ev.step.limit);
      Next(e, s, ev).staging == PromoteRows(e, s, ev.at, rows, |s.batches|, ev.step.pick).staging
  {
    hide PromoteRows, PendingRows;
  }

  lemma NextWrites(e: Entity, s: State, ev: Event)
    requires ev.step.DoWrite?
    ensures Next(e, s, ev).staging == s.staging
  {
    hide Receive;
  }

  lemma LiveIsKnown(b: Book, id: RecordId)
    requires id in b.live
    ensures id in Known(b)
  {
  }

  lemma {:induction false} TargetsAlwaysKnown(e: Entity, events: seq<Event>)
    ensures TargetsKnown(Run(e, events).staging, Run(e, events).book)
  {
    if events != [] {
      hide Next, TargetsKnown;
      TargetsAlwaysKnown(e, events[..|events| - 1]);
      TargetsKnownStep(e, Run(e, events[..|events| - 1]), events[|events| - 1]);
    }
  }

  /** A record that is gone does not come back. */
  lemma {:induction false} GoneForGood(e: Entity, s: State, attempts: seq<Attempt>, actor: string, sod: bool,
                                       note: Option<string>, id: RecordId)
    requires id in Known(s.book) && id !in s.book.live
    ensures var b := OneByOne(e, s, attempts, actor, sod, note).book; id in Known(b) && id !in b.live
  {
    if attempts != [] {
      hide ApproveVerdict, Known, Approve;
      var before, a := attempts[..|attempts| - 1], attempts[|attempts| - 1];
      GoneForGood(e, s, before, actor, sod, note, id);
      ApproveKeepsGone(e, OneByOne(e, s, before, actor, sod, note), a, actor, sod, note, id);
    }
  }

  lemma ApproveKeepsGone(e: Entity, s: State, a: Attempt, actor: string, sod: bool, note: Option<string>, id: RecordId)
    requires id in Known(s.book) && id !in s.book.live
    ensures var b := Approve(e, s, a.at, a.sid, actor, sod, note, a.newId).book; id in Known(b) && id !in b.live
  {
    hide ApproveVerdict, FreshRow, AmendedRow, RetiredRow;
    var v := ApproveVerdict(e, s, a.at, a.sid, actor, sod, a.newId);
    if v.Granted? {
      HistoryGrows(s.book, a.at, v.change);
    }
  }

  /** Neither review nor a missing golden record stands in the row's way, and it is not doomed. */
  predicate Open(e: Entity, s: State, sid: nat, actor: string, sod: bool) {
    sid < |s.staging| &&
    var r := s.staging[sid];
    Eligible(r, actor, sod) && !Doomed(e, r) && (r.target.Some? ==> r.target.value in s.book.live)
  }

  /** The rows given that can still go through. */
  function OpenRows(e: Entity, s: State, sids: seq<nat>, actor: string, sod: bool): set<nat> {
    set sid | sid in sids && Open(e, s, sid, actor, sod)
  }

  lemma GrantedRow(e: Entity, s: State, a: Attempt, actor: string, sod: bool)
    requires ApproveVerdict(e, s, a.at, a.sid, actor, sod, a.newId).Granted?
    ensures Open(e, s, a.sid, actor, sod)
  {
    hide SetsOf, BySelf, Clashes, Storable;
  }

  /** Whatever goes through was open from the start. */
  lemma GrantedWasOpen(e: Entity, s: State, attempts: seq<Attempt>, actor: string, sod: bool, note: Option<string>,
                       i: nat)
    requires TargetsKnown(s.staging, s.book)
    requires i < |attempts| && GrantedAt(e, s, attempts, actor, sod, note, i)
    ensures attempts[i].sid in OpenRows(e, s, Sids(attempts), actor, sod)
  {
    hide ApproveVerdict, OneByOne, Doomed, BySelf, Known;
    var sid, before := attempts[i].sid, attempts[..i];
    GrantedRow(e, OneByOne(e, s, before, actor, sod, note), attempts[i], actor, sod);
    RowsUntilApplied(e, s, before, actor, sod, note);
    var target := s.staging[sid].target;
    if target.Some? && target.value !in s.book.live {
      GoneForGood(e, s, before, actor, sod, note, target.value);
    }
    assert Sids(attempts)[i] == sid;
  }

  lemma TurnViolates(e: Entity, events: seq<Event>, attempts: seq<Attempt>, n: nat, actor: string, sod: bool,
                     note: Option<string>)
    requires WellFormed(e) && FreshIds(Run(e, events).book, attempts) && n < |attempts|
    requires Uncontended(e, Run(e, events), OpenRows(e, Run(e, events), Sids(attempts), actor, sod))
    ensures Violates(e, Run(e, events), attempts, actor, sod, note, n)
       <==> Fails(e, Run(e, events), attempts[n].sid, actor, sod)
  {
    hide Run, FreshIds, Doomed, TakesUnique, OneByOne, Violates, Uncontended, BySelf, GoldenSound, GrantedAt,
      TargetsKnown;
    var s, done, a := Run(e, events), attempts[..n], attempts[n];
    var t, open := OneByOne(e, s, done, actor, sod, note), OpenRows(e, s, Sids(attempts), actor, sod);
    TurnVerdict(e, events, attempts, n, actor, sod, note);
    RowsUntilApplied(e, s, done, actor, sod, note);
    GoldenAlwaysSound(e, events);
    TargetsAlwaysKnown(e, events);
    if Fails(e, s, a.sid, actor, sod) {
      FailingStays(e, events, attempts, n, a.sid, actor, sod, note);
    } else if a.sid < |t.staging| && Eligible(t.staging[a.sid], actor, sod) {
      assert Sids(attempts)[n] == a.sid;
      if Open(e, s, a.sid, actor, sod) {
        GrantedSoFar(e, s, attempts, n, actor, sod, note);
        TurnIsFree(e, s, done, actor, sod, note, open, a.sid, a.at, a.newId);
      } else {
        GoneTakesNothing(e, s, done, a, actor, sod, note);
      }
    }
  }

  lemma GrantedSoFar(e: Entity, s: State, attempts: seq<Attempt>, n: nat, actor: string, sod: bool,
                     note: Option<string>)
    requires TargetsKnown(s.staging, s.book) && n <= |attempts|
    ensures GrantedAmong(e, s, attempts[..n], actor, sod, note, OpenRows(e, s, Sids(attempts), actor, sod))
  {
    hide ApproveVerdict, OneByOne, Open, TargetsKnown;
    var done := attempts[..n];
    forall i | 0 <= i < |done| && GrantedAt(e, s, done, actor, sod, note, i)
      ensures done[i].sid in OpenRows(e, s, Sids(attempts), actor, sod)
    {
      GrantedWasOpen(e, s, done, actor, sod, note, i);
      assert Sids(attempts)[i] == done[i].sid;
    }
  }

  lemma GoneTakesNothing(e: Entity, s: State, done: seq<Attempt>, a: Attempt, actor: string, sod: bool,
                         note: Option<string>)
    requires TargetsKnown(s.staging, s.book) && a.sid < |s.staging|
    requires s.staging[a.sid].target.Some? && s.staging[a.sid].target.value !in s.book.live
    ensures var live := OneByOne(e, s, done, actor, sod, note).book.live;
      !TakesUnique(e, live, a.at, s.staging[a.sid], a.sid, actor, a.newId)
  {
    hide Known, OneByOne, SetsOf;
    GoneForGood(e, s, done, actor, sod, note, s.staging[a.sid].target.value);
  }

  /**
   What decides a bulk approval before it starts. In every reachable state, if those of the rows
   given that can still go through do not contend for unique values, the counts account for every
   id exactly when no row given is one that the database is bound to refuse: a DELETE of nothing
   made valid by an edit, or an unedited UPDATE that matched nothing and lacks a required column.
   */
  lemma BulkAccounts(e: Entity, events: seq<Event>, attempts: seq<Attempt>, actor: string, sod: bool,
                     note: Option<string>)
    requires WellFormed(e) && FreshIds(Run(e, events).book, attempts)
    requires Uncontended(e, Run(e, events), OpenRows(e, Run(e, events), Sids(attempts), actor, sod))
    ensures var t := Approvals(e, Run(e, events), attempts, actor, sod, note);
      t.approved + t.failed == |attempts|
      <==> forall i :: 0 <= i < |attempts| ==> !Fails(e, Run(e, events), attempts[i].sid, actor, sod)
    ensures forall i :: 0 <= i < |attempts| && Fails(e, Run(e, events), attempts[i].sid, actor, sod) ==>
      var r := Run(e, events).staging[attempts[i].sid];
      if r.op.OpDelete? then r.editedBy.Some? else r.op.OpUpdate? && r.editedBy.None?
  {
    hide Run, FreshIds, Doomed, Violates, Approvals, Uncontended, BySelf, OpenRows;
    var s := Run(e, events);
    BulkIsOneByOne(e, s, attempts, actor, sod, note);
    forall i | 0 <= i < |attempts|
      ensures Violates(e, s, attempts, actor, sod, note, i) <==> Fails(e, s, attempts[i].sid, actor, sod)
      ensures Fails(e, s, attempts[i].sid, actor, sod) ==>
        if s.staging[attempts[i].sid].op.OpDelete? then s.staging[attempts[i].sid].editedBy.Some?
        else s.staging[attempts[i].sid].op.OpUpdate? && s.staging[attempts[i].sid].editedBy.None?
    {
      TurnViolates(e, events, attempts, i, actor, sod, note);
      if Fails(e, s, attempts[i].sid, actor, sod) {
        DoomedKinds(e, events, attempts[i].sid);
      }
    }
  }
}

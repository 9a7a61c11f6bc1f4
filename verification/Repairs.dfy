/**
 What a steward's edit makes of a row that resolution had faulted (app/services/pipeline.py
 `edit_staging`): when the edited row is valid, what approving it then does, and runs that get there.
 */
module Repairs {
  import opened Common
  import opened Values
  import opened Strings
  import opened TypeSystem
  import opened EntityModel
  import opened Validation
  import opened Ledger
  import opened Matching
  import opened Pipeline
  import opened GoldenRules
  import opened Bulk
  import opened BulkCauses

  // ---------------------------------------------------------------- any edit

  /**
   The row's columns with the updates, each read as its type and obeying its checks: what the edited
   row is judged by.
   */
  predicate Repaired(e: Entity, r: StagingRow, updates: Row) {
    forall a :: a in e.attributes ==>
      Read(e.platform, a, r.values + updates).Good? && Obeys(e.platform, a, Stored(e.platform, a, r.values + updates))
  }

  /** An edited row is valid exactly when its columns are; no error of resolution counts any more. */
  lemma EditedValidIff(e: Entity, r: StagingRow, now: Time, updates: Row, editor: string)
    requires r.values.Keys == Names(e.attributes) && updates.Keys <= Names(e.attributes)
    ensures EditedRow(e, r, now, updates, editor).isValid <==> Repaired(e, r, updates)
  {
    hide Read, Stored, Obeys, Validated, MatchKey;
    ValidIff(e, r.values + updates, Partial(r.op));
    forall a | a in e.attributes ensures a.name in r.values {
    }
  }

  /** What approving an edited row comes to. */
  ghost function EditedOutcome(e: Entity, live: map<RecordId, GoldenRow>, at: Time, r: StagingRow, sid: nat,
                               actor: string, sod: bool, newId: RecordId): Verdict {
    if !r.isValid then Refused(HasFaults)
    else if sod && BySelf(r, actor) then Refused(OwnWork)
    else if r.op.OpDelete? && r.target.None? then Violated
    else if r.target.Some? && r.target.value !in live then Refused(GoldenRecordGone)
    else if TakesUnique(e, live, at, r, sid, actor, newId) then Violated
    else if r.op.OpDelete? then
      Granted(if e.softDelete then SoftDelete(r.target.value, actor) else HardDelete(r.target.value, actor))
    else if r.target.Some? then Granted(Amend(r.target.value, SetsOf(r), actor, sid))
    else Granted(Insert(newId, r.values, actor, sid, r.source))
  }

  /**
   After an edit the row's columns and its old target decide alone. An INSERT that was a duplicate
   updates the record it duplicates, an UPDATE of an unknown id creates a record, and a DELETE of
   one fails in the database.
   */
  lemma EditedVerdict(e: Entity, events: seq<Event>, edit: Event, at: Time, actor: string, sod: bool, newId: RecordId)
    requires WellFormed(e) && edit.step.DoEdit?
    requires EditVerdict(e, Run(e, events), edit.at, edit.step.sid, edit.step.updates, edit.step.actor).Edited?
    requires newId !in Known(Run(e, events).book)
    ensures var s, s', sid := Run(e, events), Run(e, events + [edit]), edit.step.sid;
      && sid < |s.staging| == |s'.staging| && s'.book == s.book
      && s'.staging[sid].target == s.staging[sid].target && s'.staging[sid].op == s.staging[sid].op
      && (s'.staging[sid].isValid <==> Repaired(e, s.staging[sid], edit.step.updates))
      && ApproveVerdict(e, s', at, sid, actor, sod, newId)
           == EditedOutcome(e, s'.book.live, at, s'.staging[sid], sid, actor, sod, newId)
  {
    hide Run, Validated, TakesUnique, SetsOf, BySelf, Acceptable, Repaired, Stageable, RowSound, RequiredPresent,
      MatchKey;
    var s, s', sid := Run(e, events), Run(e, events + [edit]), edit.step.sid;
    RunOneMore(e, events, edit);
    StagedRowsSound(e, events);
    StagedRowsSound(e, events + [edit]);
    SoundKeys(e, s.staging[sid]);
    EditedValidIff(e, s.staging[sid], edit.at, edit.step.updates, edit.step.actor);
    ApprovalViolates(e, events + [edit], at, sid, actor, sod, newId);
    if s'.staging[sid].isValid && !s'.staging[sid].op.OpDelete? {
      EditedNotDoomed(e, s'.staging[sid]);
    }
  }

  lemma RunOneMore(e: Entity, events: seq<Event>, ev: Event)
    ensures Run(e, events + [ev]) == Next(e, Run(e, events), ev)
  {
    hide Next;
    assert (events + [ev])[..|events|] == events;
  }

  lemma SoundKeys(e: Entity, r: StagingRow)
    requires RowSound(e, r)
    ensures r.values.Keys == Names(e.attributes)
  {
  }

  lemma EditedNotDoomed(e: Entity, r: StagingRow)
    requires RowSound(e, r) && r.isValid && r.editedBy.Some? && !r.op.OpDelete?
    ensures !Doomed(e, r)
  {
  }

  // ---------------------------------------------------------------- getting there

  /** A write and the promotion of that row alone. */
  function Intake(lid: nat, now: Time, w: WriteRequest, pick: Chooser): seq<Event> {
    [Event(now, DoWrite(w)), Event(now, DoPromote({lid}, 1, "system", pick))]
  }

  function AssessedWrite(e: Entity, s: State, now: Time, w: WriteRequest, pick: Chooser): Assessment {
    Assess(e, s.book.live, now, NewLandingRow(now, w), |s.landing|, |s.batches|, pick)
  }

  lemma {:induction false} NonePending(landing: seq<LandingRow>, ids: set<nat>)
    requires ids != {} && forall i :: i in ids ==> i >= |landing|
    ensures PendingRows(landing, ids) == []
  {
    if landing != [] {
      NonePending(landing[..|landing| - 1], ids);
    }
  }

  lemma LastPending(landing: seq<LandingRow>, r: LandingRow)
    requires r.status == Pending
    ensures PendingRows(landing + [r], {|landing|}) == [|landing|]
  {
    NonePending(landing, {|landing|});
    assert (landing + [r])[..|landing|] == landing;
  }

  lemma PromoteRowsOne(e: Entity, s: State, now: Time, i: nat, batch: nat, pick: Chooser)
    requires i < |s.landing|
    ensures PromoteRows(e, s, now, [i], batch, pick)
         == PromoteRow(e, s.book.live, Progress(s.landing, s.staging, 0, 0), now, i, batch, pick)
  {
    hide PromoteRow;
    assert [i][..0] == [];
    assert PromoteRows(e, s, now, [], batch, pick) == Progress(s.landing, s.staging, 0, 0);
  }

  lemma PromoteOne(e: Entity, s: State, now: Time, r: LandingRow, pick: Chooser)
    requires r.status == Pending
    requires Assess(e, s.book.live, now, r, |s.landing|, |s.batches|, pick).Stage?
    ensures var t := Promote(e, s.(landing := s.landing + [r]), now, {|s.landing|}, 1, "system", pick);
      && t.book == s.book && |t.landing| == |s.landing| + 1
      && t.staging == s.staging + [Assess(e, s.book.live, now, r, |s.landing|, |s.batches|, pick).row]
  {
    hide Assess, PendingRows, PromoteRows;
    LastPending(s.landing, r);
    PromoteRowsOne(e, s.(landing := s.landing + [r]), now, |s.landing|, |s.batches|, pick);
    assert (s.landing + [r])[|s.landing|] == r;
  }

  /** From any reachable state, a storable write without a key can be landed and staged. */
  lemma IntakeStages(e: Entity, events: seq<Event>, now: Time, w: WriteRequest, pick: Chooser)
    requires !w.op.OpOther? && w.key.None? && AssessedWrite(e, Run(e, events), now, w, pick).Stage?
    ensures var s := Run(e, events);
      var t := Run(e, events + Intake(|s.landing|, now, w, pick));
      && t.book == s.book && |t.landing| == |s.landing| + 1
      && t.staging == s.staging + [AssessedWrite(e, s, now, w, pick).row]
  {
    hide Run, Assess, Promote;
    var s := Run(e, events);
    var two := Intake(|s.landing|, now, w, pick);
    RunOneMore(e, events, two[0]);
    RunOneMore(e, events + [two[0]], two[1]);
    assert events + [two[0]] + [two[1]] == events + two;
    PromoteOne(e, s, now, NewLandingRow(now, w), pick);
  }

  /**
   From every reachable state there is a way to a row that ends bulk calls: land a DELETE of an
   unknown id, stage it, and edit it so that its columns are valid.
   */
  lemma UnmatchedDeleteReachable(e: Entity, events: seq<Event>, now: Time, w: WriteRequest, pick: Chooser, updates: Row,
                                 editor: string)
    requires WellFormed(e) && w.op.OpDelete? && w.key.None? && w.target.Explicit?
    requires w.target.id !in Run(e, events).book.live
    requires AssessedWrite(e, Run(e, events), now, w, pick).Stage?
    requires var row := AssessedWrite(e, Run(e, events), now, w, pick).row;
      && updates.Keys <= Names(e.attributes) && Repaired(e, row, updates)
      && Stageable(e, EditedRow(e, row, now, updates, editor).values)
    ensures var s := Run(e, events);
      var staged := events + Intake(|s.landing|, now, w, pick);
      var sid, edited := |s.staging|, Run(e, staged + [Event(now, DoEdit(|s.staging|, updates, editor))]);
      && sid < |Run(e, staged).staging| && !Run(e, staged).staging[sid].isValid
      && sid < |edited.staging| && edited.staging[sid].op.OpDelete?
      && forall actor, sod :: !sod || (editor != "" && editor != actor) ==> Fails(e, edited, sid, actor, sod)
  {
    hide Run, Validated, Repaired, Stageable, MatchKey, RowSound;
    var s := Run(e, events);
    var staged, edit := events + Intake(|s.landing|, now, w, pick), Event(now, DoEdit(|s.staging|, updates, editor));
    IntakeStages(e, events, now, w, pick);
    RunOneMore(e, staged, edit);
    StagedRowsSound(e, staged);
    SoundKeys(e, Run(e, staged).staging[|s.staging|]);
    EditedValidIff(e, Run(e, staged).staging[|s.staging|], now, updates, editor);
  }

  /**
   From every reachable state the same goes for a duplicate: land an INSERT that resolution finds
   to repeat a golden record, stage it as faulty, edit it, and it is approved as an update of that
   record unless it brings a unique value that is taken.
   */
  lemma DuplicateReachable(e: Entity, events: seq<Event>, now: Time, w: WriteRequest, pick: Chooser, id: RecordId,
                           updates: Row, editor: string, at: Time, actor: string, newId: RecordId)
    requires WellFormed(e) && w.op.OpInsert? && w.key.None? && w.target.NoTarget?
    requires id in Run(e, events).book.live && newId !in Known(Run(e, events).book)
    requires AssessedWrite(e, Run(e, events), now, w, pick).Stage?
    requires AssessedWrite(e, Run(e, events), now, w, pick).row.target == Some(id)
    requires var row := AssessedWrite(e, Run(e, events), now, w, pick).row;
      && updates.Keys <= Names(e.attributes) && Repaired(e, row, updates)
      && Stageable(e, EditedRow(e, row, now, updates, editor).values)
    requires editor != "" && editor != actor
    ensures var s := Run(e, events);
      var staged, sid := events + Intake(|s.landing|, now, w, pick), |s.staging|;
      var edited := Run(e, staged + [Event(now, DoEdit(sid, updates, editor))]);
      && sid < |Run(e, staged).staging| && !Run(e, staged).staging[sid].isValid
      && sid < |edited.staging| && edited.staging[sid].isValid
      && ApproveVerdict(e, edited, at, sid, actor, true, newId) ==
           if TakesUnique(e, s.book.live, at, edited.staging[sid], sid, actor, newId) then Violated
           else Granted(Amend(id, SetsOf(edited.staging[sid]), actor, sid))
  {
    hide Run, Validated, Repaired, Stageable, MatchKey, RowSound, TakesUnique, SetsOf, ApproveVerdict, Assess;
    var s := Run(e, events);
    var staged, edit := events + Intake(|s.landing|, now, w, pick), Event(now, DoEdit(|s.staging|, updates, editor));
    IntakeStages(e, events, now, w, pick);
    RunOneMore(e, staged, edit);
    FoundIsFaulty(e, s.book.live, now, NewLandingRow(now, w), |s.landing|, |s.batches|, pick);
    EditedVerdict(e, staged, edit, at, actor, true, newId);
  }

  lemma FoundIsFaulty(e: Entity, live: map<RecordId, GoldenRow>, now: Time, r: LandingRow, i: nat, batch: nat,
                      pick: Chooser)
    requires r.op.OpInsert? && r.target.NoTarget? && Assess(e, live, now, r, i, batch, pick).Stage?
    requires Assess(e, live, now, r, i, batch, pick).row.target.Some?
    ensures var row := Assess(e, live, now, r, i, batch, pick).row;
      !row.isValid && row.op.OpInsert? && row.status == PendingReview
  {
    hide Validated, Filled, Stageable, MatchKey, HasAll, ByBusinessKey, ByMatchKey, Selected;
    var values := Validated(e, r.payload, Partial(r.op)).values;
    var found := Resolve(e, live, values, r.target, r.op, pick).faults;
    if BusinessKey(e) != [] && HasAll(values, BusinessKey(e)) {
      assert Fault(BusinessKey(e)[0].name, Duplicate) in found;
    } else {
      assert Fault(MatchKeys(e)[0].name, ProbableDuplicate) in found;
    }
  }

  // ---------------------------------------------------------------- the smallest entity

  /** One optional text attribute, the business key, without rules or checks. */
  function Single(): Attribute {
    Attribute("k", TextT, None, None, None, false, false, true, false, None, Null,
              Checks(None, None, None, [], None, None), [])
  }

  function Smallest(p: Platform): Entity {
    Entity("e", [Single()], true, p)
  }

  function Wrote(op: Operation, payload: Row, target: Target): WriteRequest {
    WriteRequest(op, payload, target, None, Some("submitter"), None, None)
  }

  lemma SmallestWellFormed(p: Platform)
    ensures WellFormed(Smallest(p)) && Names(Smallest(p).attributes) == {"k"} && Single() in Smallest(p).attributes
    ensures BusinessKey(Smallest(p)) == [Single()] && MatchKeys(Smallest(p)) == []
  {
    assert "mdm_"[0] != "k"[0];
    assert Smallest(p).attributes[0] == Single();
    assert Selected([], true) == [] && Selected([], false) == [];
  }

  /** The attribute stores any visible text as it is. */
  lemma SingleStored(p: Platform, payload: Row)
    requires At(payload, "k") == Null || At(payload, "k") == Text("x")
    ensures Read(p, Single(), payload).Good? && Stored(p, Single(), payload) == At(payload, "k")
    ensures Obeys(p, Single(), Stored(p, Single(), payload)) && Storable(Single(), Stored(p, Single(), payload))
  {
    assert Strip("x") == "x" by {
      assert StripLeft("x") == "x" && StripRight("x") == "x";
    }
  }

  predicate SmallPayload(payload: Row) {
    payload.Keys <= {"k"} && (At(payload, "k") == Null || At(payload, "k") == Text("x"))
  }

  lemma SmallestValidated(p: Platform, payload: Row, partial: bool)
    requires SmallPayload(payload)
    ensures var outcome := Validated(Smallest(p), payload, partial);
      && outcome.faults == {} && outcome.values.Keys <= {"k"} && At(outcome.values, "k") == At(payload, "k")
  {
    hide Read, Stored, Obeys, Validated;
    var e := Smallest(p);
    SmallestWellFormed(p);
    SingleStored(p, payload);
    ValidIff(e, payload, partial);
    ValidatedClean(e, payload, partial);
    ValidatedColumn(e, payload, partial, Single());
  }

  /** A small payload is staged as it is, with the target and errors resolution gives it. */
  lemma SmallestAssessed(p: Platform, live: map<RecordId, GoldenRow>, now: Time, r: LandingRow, i: nat, batch: nat,
                         pick: Chooser)
    requires SmallPayload(r.payload) && !r.target.Malformed?
    ensures var a, outcome := Assess(Smallest(p), live, now, r, i, batch, pick),
                              Validated(Smallest(p), r.payload, Partial(r.op));
      var res := Resolve(Smallest(p), live, outcome.values, r.target, r.op, pick);
      && a.Stage? && a.row.values == map["k" := At(r.payload, "k")] && res.Resolved? && a.row.target == res.target
      && a.row.op == r.op && a.row.status == PendingReview && a.row.submittedBy == r.submittedBy && a.row.editedBy.None?
      && (res.faults == {} && !r.op.OpDelete? ==> a.row.isValid)
  {
    hide Validated, Resolve, MatchKey, Filled, Fits;
    var e := Smallest(p);
    var outcome := Validated(e, r.payload, Partial(r.op));
    var columns := Filled(e.attributes, outcome.values);
    SmallestWellFormed(p);
    SmallestValidated(p, r.payload, Partial(r.op));
    FilledKeys(e.attributes, outcome.values);
    FilledColumn(e.attributes, outcome.values, Single());
    SmallFits(At(r.payload, "k"));
    assert columns == map["k" := At(r.payload, "k")];
    assert forall a :: a in e.attributes ==> a == Single();
    ResolveResolves(e, live, outcome.values, r.target, r.op, pick);
  }

  lemma SmallFits(v: Value)
    ensures Storable(Single(), v)
  {
  }

  lemma ResolveResolves(e: Entity, live: map<RecordId, GoldenRow>, values: Row, target: Target, op: Operation,
                        pick: Chooser)
    requires !target.Malformed?
    ensures Resolve(e, live, values, target, op, pick).Resolved?
  {
  }

  /** The edited form of a small row, whatever the edit leaves alone. */
  lemma SmallestRepaired(p: Platform, r: StagingRow, now: Time, editor: string)
    requires r.values.Keys == {"k"} && SmallPayload(r.values)
    ensures Repaired(Smallest(p), r, map[])
    ensures Stageable(Smallest(p), EditedRow(Smallest(p), r, now, map[], editor).values)
  {
    hide Read, Stored, Obeys, Validated, MatchKey, Storable;
    assert r.values + map[] == r.values;
    SingleStored(p, r.values);
    forall v ensures Storable(Single(), v) {
      SmallFits(v);
    }
    assert forall a :: a in Smallest(p).attributes ==> a == Single();
  }

  /**
   A run that ends a bulk call at once: a DELETE of an unknown id, staged and then edited without
   changing anything. Whatever else the call was given, nothing is decided and both counts are zero.
   */
  lemma UnmatchedDeleteInstance(p: Platform, pick: Chooser, more: seq<Attempt>)
    ensures var staged := Intake(0, 0, Wrote(OpDelete, map[], Explicit(7)), pick);
      var events := staged + [Event(0, DoEdit(0, map[], "editor"))];
      var s := Run(Smallest(p), events);
      Approvals(Smallest(p), s, [Attempt(0, 1, 0)] + more, "steward", true, None) == Tally(s, 0, 0, true)
  {
    hide Run, Approvals, BySelf, Fails, Smallest;
    var staged := Intake(0, 0, Wrote(OpDelete, map[], Explicit(7)), pick);
    var s := Run(Smallest(p), staged + [Event(0, DoEdit(0, map[], "editor"))]);
    UnmatchedDeleteRun(p, pick);
    FailingDelete(Smallest(p), s, 0, "steward", true);
    UnresolvedDeleteEndsBulk(Smallest(p), s, [Attempt(0, 1, 0)] + more, "steward", true, None);
  }

  lemma UnmatchedDeleteRun(p: Platform, pick: Chooser)
    ensures var staged := Intake(0, 0, Wrote(OpDelete, map[], Explicit(7)), pick);
      var s := Run(Smallest(p), staged + [Event(0, DoEdit(0, map[], "editor"))]);
      |s.staging| > 0 && s.staging[0].op.OpDelete? && Fails(Smallest(p), s, 0, "steward", true)
  {
    hide Assess, Repaired, Stageable, EditedRow, BySelf, Smallest, RequiredPresent, Fails, Next;
    var e, w := Smallest(p), Wrote(OpDelete, map[], Explicit(7));
    var staged := Intake(0, 0, w, pick);
    assert [] + staged == staged && Run(e, []) == INITIAL;
    hide Run;
    SmallestWellFormed(p);
    SmallestAssessed(p, map[], 0, NewLandingRow(0, w), 0, 0, pick);
    SmallestRepaired(p, AssessedWrite(e, INITIAL, 0, w, pick).row, 0, "editor");
    UnmatchedDeleteReachable(e, [], 0, w, pick, map[], "editor");
  }

  lemma FailingDelete(e: Entity, s: State, sid: nat, actor: string, sod: bool)
    requires Fails(e, s, sid, actor, sod)
    ensures sid < |s.staging|
    ensures var r := s.staging[sid];
      r.target.None? && r.isValid && r.status != Applied && r.status != Rejected && !(sod && BySelf(r, actor))
  {
    hide BySelf, RequiredPresent;
  }

  /** The first half of the next run: a golden record, written, staged and approved. */
  function FirstRecord(pick: Chooser): seq<Event> {
    Intake(0, 0, Wrote(OpInsert, map["k" := Text("x")], NoTarget), pick)
    + [Event(1, DoApprove(0, "steward", true, None, 0))]
  }

  lemma NothingFound(e: Entity, values: Row, op: Operation, pick: Chooser)
    ensures Resolve(e, map[], values, NoTarget, op, pick) == Resolved(None, {})
  {
    assert ByBusinessKey(e, map[], values) == {} && ByMatchKey(e, map[], values) == {};
  }

  lemma FirstApproved(p: Platform, s: State)
    requires s.book == EMPTY && |s.staging| == 1
    requires var r := s.staging[0];
      && r.values == map["k" := Text("x")] && r.op.OpInsert? && r.target.None? && r.isValid && r.status == PendingReview
      && r.submittedBy == Some("submitter") && r.editedBy.None?
    ensures var t := Approve(Smallest(p), s, 1, 0, "steward", true, None, 0);
      && t.book.live.Keys == {0} && t.book.history == [] && !t.book.live[0].deleted
      && t.book.live[0].values == map["k" := Text("x")]
      && |t.staging| == 1 && t.landing == s.landing
  {
    SmallFits(Text("x"));
    assert Known(s.book) == {};
    assert "submitter" != "steward" by { assert |"submitter"| != |"steward"|; }
    var change := Insert(0, s.staging[0].values, "steward", 0, s.staging[0].source);
    assert ColumnsFit(Smallest(p), change.values);
    assert Acceptable(Smallest(p), s.book.live, 0, FreshRow(1, change));
    assert ApproveVerdict(Smallest(p), s, 1, 0, "steward", true, 0) == Granted(change);
  }

  lemma FirstRecordLive(p: Platform, pick: Chooser)
    ensures var s := Run(Smallest(p), FirstRecord(pick));
      && s.book.live.Keys == {0} && s.book.history == [] && !s.book.live[0].deleted
      && s.book.live[0].values == map["k" := Text("x")]
      && |s.staging| == 1 && |s.landing| == 1
  {
    hide Next, Assess, Promote, BySelf, Smallest, Resolve, Approve;
    var e, w := Smallest(p), Wrote(OpInsert, map["k" := Text("x")], NoTarget);
    var staged := Intake(0, 0, w, pick);
    assert [] + staged == staged;
    SmallestAssessed(p, map[], 0, NewLandingRow(0, w), 0, 0, pick);
    NothingFound(e, Validated(e, w.payload, false).values, OpInsert, pick);
    IntakeStages(e, [], 0, w, pick);
    hide Run;
    RunOneMore(e, staged, Event(1, DoApprove(0, "steward", true, None, 0)));
    NextApproves(e, Run(e, staged), Event(1, DoApprove(0, "steward", true, None, 0)));
    FirstApproved(p, Run(e, staged));
  }

  /**
   A run in which a known duplicate is approved: the record "x" exists, an INSERT of "x" is staged as
   its duplicate and faulty, an edit that changes nothing makes it valid, and approving it, segregation
   of duties included, updates the record.
   */
  lemma DuplicateInstance(p: Platform, pick: Chooser)
    ensures var e, w := Smallest(p), Wrote(OpInsert, map["k" := Text("x")], NoTarget);
      var staged := FirstRecord(pick) + Intake(1, 2, w, pick);
      var edited := Run(e, staged + [Event(2, DoEdit(1, map[], "editor"))]);
      && 1 < |Run(e, staged).staging| && !Run(e, staged).staging[1].isValid
      && 1 < |edited.staging|
      && ApproveVerdict(e, edited, 3, 1, "steward", true, 1)
           == Granted(Amend(0, SetsOf(edited.staging[1]), "steward", 1))
  {
    hide Run, Assess, BySelf, Smallest, Repaired, Stageable, EditedRow, SetsOf, ApproveVerdict, TakesUnique, Known;
    var e, w := Smallest(p), Wrote(OpInsert, map["k" := Text("x")], NoTarget);
    var s := Run(e, FirstRecord(pick));
    FirstRecordLive(p, pick);
    SmallestWellFormed(p);
    OnlyOneKnown(s.book);
    DuplicateAssessed(p, s, w, pick);
    SmallestRepaired(p, AssessedWrite(e, s, 2, w, pick).row, 2, "editor");
    assert "editor" != "steward" by { assert |"editor"| != |"steward"|; }
    DuplicateReachable(e, FirstRecord(pick), 2, w, pick, 0, map[], "editor", 3, "steward", 1);
    var edited := Run(e, FirstRecord(pick) + Intake(1, 2, w, pick) + [Event(2, DoEdit(1, map[], "editor"))]);
    NothingUniqueTaken(p, s.book.live, 3, edited.staging[1], 1, "steward", 1);
  }

  lemma OnlyOneKnown(b: Book)
    requires b.live.Keys == {0} && b.history == []
    ensures Known(b) == {0}
  {
  }

  lemma DuplicateAssessed(p: Platform, s: State, w: WriteRequest, pick: Chooser)
    requires w == Wrote(OpInsert, map["k" := Text("x")], NoTarget)
    requires s.book.live.Keys == {0} && !s.book.live[0].deleted && s.book.live[0].values == map["k" := Text("x")]
    ensures var a := AssessedWrite(Smallest(p), s, 2, w, pick);
      a.Stage? && a.row.target == Some(0) && a.row.values == map["k" := Text("x")]
  {
    hide Assess, Smallest, Resolve, Validated;
    SmallestAssessed(p, s.book.live, 2, NewLandingRow(2, w), |s.landing|, |s.batches|, pick);
    OnlyFound(p, s.book.live, pick);
  }

  lemma OnlyFound(p: Platform, live: map<RecordId, GoldenRow>, pick: Chooser)
    requires live.Keys == {0} && !live[0].deleted && live[0].values == map["k" := Text("x")]
    ensures var outcome := Validated(Smallest(p), map["k" := Text("x")], false);
      Resolve(Smallest(p), live, outcome.values, NoTarget, OpInsert, pick).Resolved?
      && Resolve(Smallest(p), live, outcome.values, NoTarget, OpInsert, pick).target == Some(0)
  {
    hide Validated, Smallest;
    var values := Validated(Smallest(p), map["k" := Text("x")], false).values;
    SmallestWellFormed(p);
    SmallestValidated(p, map["k" := Text("x")], false);
    assert ByBusinessKey(Smallest(p), live, values) == {0};
  }

  lemma NothingUniqueTaken(p: Platform, live: map<RecordId, GoldenRow>, at: Time, r: StagingRow, sid: nat,
                           actor: string, newId: RecordId)
    ensures !TakesUnique(Smallest(p), live, at, r, sid, actor, newId)
  {
    hide SetsOf, AmendedRow;
    assert forall a :: a in Smallest(p).attributes ==> !a.unique;
  }

  // ---------------------------------------------------------------- the update that matched nothing

  /**
   From every reachable state, an UPDATE that validation accepts and that matches no golden record
   can be landed and staged as valid; approving it creates a record, unless a required column it
   left out has no default or a unique value is taken.
   */
  lemma UnmatchedUpdateReachable(e: Entity, events: seq<Event>, now: Time, w: WriteRequest, pick: Chooser, at: Time,
                                 actor: string, newId: RecordId)
    requires WellFormed(e) && w.op.OpUpdate? && w.key.None? && newId !in Known(Run(e, events).book)
    requires AssessedWrite(e, Run(e, events), now, w, pick).Stage?
    requires var row := AssessedWrite(e, Run(e, events), now, w, pick).row; row.target.None? && row.isValid
    ensures var s := Run(e, events);
      var staged, sid := Run(e, events + Intake(|s.landing|, now, w, pick)), |s.staging|;
      && sid < |staged.staging| && staged.staging[sid].isValid && staged.staging[sid].editedBy.None?
      && var r := staged.staging[sid];
      var change := Insert(newId, r.values, actor, sid, r.source);
      ApproveVerdict(e, staged, at, sid, actor, false, newId)
        == if !RequiredPresent(e, r, Names(e.attributes)) then Violated
           else if ClashesWithAnother(e, s.book.live, newId, FreshRow(at, change)) then Violated
           else Granted(change)
  {
    hide Run, Assess, ApproveVerdict, RequiredPresent, Clashes, FreshRow;
    var s := Run(e, events);
    IntakeStages(e, events, now, w, pick);
    StagedAsLanded(e, s.book.live, now, NewLandingRow(now, w), |s.landing|, |s.batches|, pick);
    UnmatchedUpdateCreates(e, events + Intake(|s.landing|, now, w, pick), at, |s.staging|, actor, false, newId);
  }

  lemma StagedAsLanded(e: Entity, live: map<RecordId, GoldenRow>, now: Time, r: LandingRow, i: nat, batch: nat,
                       pick: Chooser)
    requires Assess(e, live, now, r, i, batch, pick).Stage?
    ensures var row := Assess(e, live, now, r, i, batch, pick).row;
      row.op == r.op && row.status == PendingReview && row.editedBy.None? && row.source == r.source
  {
    hide Validated, Resolve, Filled, Stageable, MatchKey;
  }

  /** A run that creates a record by approving an UPDATE: the key "x" matches nothing on empty tables. */
  lemma UnmatchedUpdateInstance(p: Platform, pick: Chooser)
    ensures var s := Run(Smallest(p), Intake(0, 0, Wrote(OpUpdate, map["k" := Text("x")], NoTarget), pick));
      && |s.staging| == 1 && s.staging[0].op.OpUpdate? && s.book == EMPTY
      && ApproveVerdict(Smallest(p), s, 1, 0, "steward", false, 0)
           == Granted(Insert(0, map["k" := Text("x")], "steward", 0, None))
  {
    hide Next, Assess, Smallest, Resolve, ApproveVerdict, RequiredPresent, FreshRow;
    var e, w := Smallest(p), Wrote(OpUpdate, map["k" := Text("x")], NoTarget);
    var staged := Intake(0, 0, w, pick);
    assert [] + staged == staged && Known(EMPTY) == {};
    SmallestWellFormed(p);
    SmallestAssessed(p, map[], 0, NewLandingRow(0, w), 0, 0, pick);
    NothingFound(e, Validated(e, w.payload, true).values, OpUpdate, pick);
    IntakeStages(e, [], 0, w, pick);
    StagedAsLanded(e, map[], 0, NewLandingRow(0, w), 0, 0, pick);
    UnmatchedUpdateReachable(e, [], 0, w, pick, 1, "steward", 0);
    SmallestRequiresNothing(p, Run(e, staged).staging[0]);
  }

  lemma SmallestRequiresNothing(p: Platform, r: StagingRow)
    ensures RequiredPresent(Smallest(p), r, Names(Smallest(p).attributes))
  {
    assert forall a :: a in Smallest(p).attributes ==> !a.required;
  }
}

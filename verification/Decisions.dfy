/**
 What a steward's decision leaves (app/services/pipeline.py `apply_staging_to_live`,
 `reject_staging`, `edit_staging`), told column by column: every value of the rows it writes, and
 that nothing else changes.
 */
module Decisions {
  import opened Common
  import opened Values
  import opened EntityModel
  import opened Validation
  import opened Ledger
  import opened Matching
  import opened Pipeline
  import opened Refinement
  import opened GoldenRules

  // ---------------------------------------------------------------- approval: who is refused

  /** The last editor if one is on record, else the submitter, is the one deciding. */
  predicate DecidesOwnWork(r: StagingRow, actor: string) {
    if r.editedBy.Some? && r.editedBy.value != "" then r.editedBy == Some(actor)
    else r.submittedBy == Some(actor) && actor != ""
  }

  /** Each refusal of an approval has its own cause, and the first that applies is the one given. */
  lemma RefusalMeans(e: Entity, s: State, at: Time, sid: nat, actor: string, sod: bool, newId: RecordId)
    ensures var v := ApproveVerdict(e, s, at, sid, actor, sod, newId);
      if sid >= |s.staging| then v == Refused(NoSuchRow)
      else if s.staging[sid].status in {Applied, Rejected} then v == Refused(AlreadyDecided)
      else if !s.staging[sid].isValid then v == Refused(HasFaults)
      else if sod && DecidesOwnWork(s.staging[sid], actor) then v == Refused(OwnWork)
      else if s.staging[sid].target.Some? && s.staging[sid].target.value !in s.book.live
      then v == Refused(GoldenRecordGone)
      else !v.Refused?
  {
    hide Acceptable, SetsOf;
  }

  // ---------------------------------------------------------------- approval: the staging side

  /** The applied row keeps everything but its status and the decision; all other rows are untouched. */
  lemma AppliedMeans(e: Entity, s: State, at: Time, sid: nat, actor: string, sod: bool, note: Option<string>,
                     newId: RecordId)
    requires ApproveVerdict(e, s, at, sid, actor, sod, newId).Granted?
    ensures var t := Approve(e, s, at, sid, actor, sod, note, newId);
      && t.landing == s.landing && t.batches == s.batches && |t.staging| == |s.staging| && sid < |s.staging|
      && (forall i :: 0 <= i < |s.staging| && i != sid ==> t.staging[i] == s.staging[i])
      && var before, after := s.staging[sid], t.staging[sid];
      && after.status == Applied && after.note == note
      && after.reviewedBy == Some(actor) && after.reviewedAt == Some(at)
      && after.landingId == before.landingId && after.op == before.op && after.target == before.target
      && after.matchKey == before.matchKey && after.source == before.source && after.batch == before.batch
      && after.faults == before.faults && after.isValid == before.isValid && after.changeType == before.changeType
      && after.submittedBy == before.submittedBy && after.submittedAt == before.submittedAt
      && after.editedBy == before.editedBy && after.editedAt == before.editedAt
      && after.supplied == before.supplied && after.values == before.values
  {
    hide ChangeFor, BySelf, Apply;
  }

  /** A refusal or a database error leaves every table as it was. */
  lemma RefusedMeans(e: Entity, s: State, at: Time, sid: nat, actor: string, sod: bool, note: Option<string>,
                     newId: RecordId)
    requires !ApproveVerdict(e, s, at, sid, actor, sod, newId).Granted?
    ensures Approve(e, s, at, sid, actor, sod, note, newId) == s
  {
    hide ApproveVerdict;
  }

  // ---------------------------------------------------------------- approval: the golden side

  /** The history row tells what the golden row was until the decision, and who ended it. */
  predicate Archives(h: HistoryRow, id: RecordId, was: GoldenRow, kind: ChangeKind, at: Time, actor: string) {
    && h.id == id && h.version == was.version && h.kind == kind && h.validFrom == was.updatedAt && h.validTo == at
    && h.changedBy == actor && h.source == was.source && h.deleted == was.deleted && h.stagingId == was.stagingId
    && h.values == was.values
  }

  /** Exactly one history row is added, and it archives the record. */
  predicate OneArchived(before: Book, after: Book, id: RecordId, kind: ChangeKind, at: Time, actor: string) {
    && id in before.live && |after.history| == |before.history| + 1
    && after.history[..|before.history|] == before.history
    && Archives(after.history[|before.history|], id, before.live[id], kind, at, actor)
  }

  /** No golden record but one is touched. */
  predicate OthersKept(before: Book, after: Book, id: RecordId) {
    && (forall other :: other in before.live && other != id ==>
          other in after.live && after.live[other] == before.live[other])
    && (forall other :: other in after.live && other != id ==> other in before.live)
  }

  /** Approving a row without a target creates an active record at version 1 with the row's columns. */
  lemma CreationMeans(e: Entity, s: State, at: Time, sid: nat, actor: string, sod: bool, note: Option<string>,
                      newId: RecordId)
    requires ApproveVerdict(e, s, at, sid, actor, sod, newId).Granted?
    requires !s.staging[sid].op.OpDelete? && s.staging[sid].target.None?
    ensures var before, after := s.book, Approve(e, s, at, sid, actor, sod, note, newId).book;
      && newId !in before.live && newId in after.live && OthersKept(before, after, newId)
      && after.history == before.history
      && var r, row := s.staging[sid], after.live[newId];
      && row.values == r.values && row.version == 1 && row.source == r.source && row.stagingId == sid
      && !row.deleted && row.deletedAt.None? && row.createdAt == at && row.updatedAt == at
      && row.createdBy == actor && row.updatedBy == actor && row.approvedBy == actor
  {
    hide Acceptable, BySelf;
  }

  /** Approving an update archives the old row and overwrites the columns it sets, one version on. */
  lemma RevisionMeans(e: Entity, s: State, at: Time, sid: nat, actor: string, sod: bool, note: Option<string>,
                      newId: RecordId)
    requires ApproveVerdict(e, s, at, sid, actor, sod, newId).Granted?
    requires !s.staging[sid].op.OpDelete? && s.staging[sid].target.Some?
    ensures var id := s.staging[sid].target.value;
      var before, after := s.book, Approve(e, s, at, sid, actor, sod, note, newId).book;
      && OneArchived(before, after, id, Updated, at, actor) && id in after.live && OthersKept(before, after, id)
      && var r, was, row := s.staging[sid], before.live[id], after.live[id];
      && (SetsNothing(r) ==> row == was)
      && (!SetsNothing(r) ==>
            && row.version == was.version + 1 && row.updatedAt == at && row.stagingId == sid
            && row.updatedBy == actor && row.approvedBy == actor
            && row.source == was.source && row.deleted == was.deleted && row.deletedAt == was.deletedAt
            && row.createdAt == was.createdAt && row.createdBy == was.createdBy
            && (forall name :: name in row.values <==> name in was.values || IsSet(r, name))
            && (forall name :: name in row.values ==>
                  row.values[name] == if IsSet(r, name) then r.values[name] else was.values[name]))
  {
    hide Acceptable, BySelf;
    var r := s.staging[sid];
    assert forall name :: name in SetsOf(r) <==> IsSet(r, name);
  }

  /** The column is one the row may overwrite: supplied, or not null if nothing was supplied. */
  predicate IsSet(r: StagingRow, name: string) {
    name in r.values && if r.supplied == {} then r.values[name] != Null else name in r.supplied
  }

  ghost predicate SetsNothing(r: StagingRow) {
    forall name :: !IsSet(r, name)
  }

  /**
   Approving a DELETE of an entity that keeps its deleted records archives the row and marks it:
   deleted at that time, one version on, its values untouched. No search by key finds it any more.
   */
  lemma SoftDeletionMeans(e: Entity, s: State, at: Time, sid: nat, actor: string, sod: bool, note: Option<string>,
                          newId: RecordId)
    requires ApproveVerdict(e, s, at, sid, actor, sod, newId).Granted?
    requires e.softDelete && s.staging[sid].op.OpDelete?
    ensures s.staging[sid].target.Some?
    ensures var id := s.staging[sid].target.value;
      var before, after := s.book, Approve(e, s, at, sid, actor, sod, note, newId).book;
      && OneArchived(before, after, id, Deleted, at, actor) && id in after.live && OthersKept(before, after, id)
      && var was, row := before.live[id], after.live[id];
      && row.deleted && row.deletedAt == Some(at) && row.version == was.version + 1 && row.updatedAt == at
      && row.updatedBy == actor && row.approvedBy == actor
      && row.values == was.values && row.source == was.source && row.stagingId == was.stagingId
      && row.createdAt == was.createdAt && row.createdBy == was.createdBy
      && forall values :: id !in ByBusinessKey(e, after.live, values) && id !in ByMatchKey(e, after.live, values)
  {
    hide Acceptable, BySelf, SameBusinessKey, SameProbe;
  }

  /** Approving a DELETE of any other entity archives the row and removes it. */
  lemma HardDeletionMeans(e: Entity, s: State, at: Time, sid: nat, actor: string, sod: bool, note: Option<string>,
                          newId: RecordId)
    requires ApproveVerdict(e, s, at, sid, actor, sod, newId).Granted?
    requires !e.softDelete && s.staging[sid].op.OpDelete?
    ensures s.staging[sid].target.Some?
    ensures var id := s.staging[sid].target.value;
      var before, after := s.book, Approve(e, s, at, sid, actor, sod, note, newId).book;
      OneArchived(before, after, id, Deleted, at, actor) && id !in after.live && OthersKept(before, after, id)
  {
    hide Acceptable, BySelf;
  }

  // ---------------------------------------------------------------- deletion over a run

  /** The k-th granted change marked the record deleted. */
  predicate MarksDeleted(log: seq<Entry>, k: nat, id: RecordId) {
    k < |log| && log[k].change.SoftDelete? && log[k].change.id == id
  }

  ghost predicate EverMarked(log: seq<Entry>, id: RecordId) {
    exists k :: MarksDeleted(log, k, id)
  }

  /** Each change could be made when it was. */
  ghost predicate AllEnabled(log: seq<Entry>) {
    forall k :: 0 <= k < |log| ==> Enabled(Replay(log[..k]), log[k].change)
  }

  lemma EnabledPrefix(log: seq<Entry>)
    requires log != [] && AllEnabled(log)
    ensures AllEnabled(log[..|log| - 1]) && Enabled(Replay(log[..|log| - 1]), log[|log| - 1].change)
  {
    var before := log[..|log| - 1];
    forall k | 0 <= k < |before| ensures Enabled(Replay(before[..k]), before[k].change) {
      assert before[..k] == log[..k];
    }
  }

  lemma MarkedLast(log: seq<Entry>, id: RecordId)
    requires log != []
    ensures EverMarked(log, id) <==> EverMarked(log[..|log| - 1], id) || MarksDeleted(log, |log| - 1, id)
  {
    var before := log[..|log| - 1];
    if k :| MarksDeleted(log, k, id) && k != |log| - 1 {
      assert MarksDeleted(before, k, id);
    }
    if k :| MarksDeleted(before, k, id) {
      assert MarksDeleted(log, k, id);
    }
  }

  /** Only a soft deletion marks a record, and nothing ever unmarks it. */
  lemma MarkStep(b: Book, at: Time, c: Change, id: RecordId)
    requires Enabled(b, c) && id in Apply(b, at, c).live
    ensures id in b.live ==>
      (Apply(b, at, c).live[id].deleted <==> b.live[id].deleted || (c.SoftDelete? && c.id == id))
    ensures id !in b.live ==> c.Insert? && c.id == id && !Apply(b, at, c).live[id].deleted
  {
  }

  lemma {:induction false} DeletedByLog(log: seq<Entry>, id: RecordId)
    requires AllEnabled(log) && id in Replay(log).live
    ensures Replay(log).live[id].deleted <==> EverMarked(log, id)
  {
    if log != [] {
      hide Apply, AllEnabled, Known, EverMarked;
      var before, last := log[..|log| - 1], log[|log| - 1];
      EnabledPrefix(log);
      MarkedLast(log, id);
      MarkStep(Replay(before), last.at, last.change, id);
      if id in Replay(before).live {
        DeletedByLog(before, id);
      } else {
        NeverMarked(before, id);
      }
    }
  }

  /** A record that is yet to be created was never marked. */
  lemma {:induction false} NeverMarked(log: seq<Entry>, id: RecordId)
    requires AllEnabled(log) && id !in Known(Replay(log))
    ensures !EverMarked(log, id)
  {
    if log != [] {
      hide Apply, AllEnabled, EverMarked;
      var before, last := log[..|log| - 1], log[|log| - 1];
      EnabledPrefix(log);
      MarkedLast(log, id);
      HistoryGrows(Replay(before), last.at, last.change);
      NeverMarked(before, id);
    }
  }

  lemma OneMoreEnabled(log: seq<Entry>, last: Entry)
    requires AllEnabled(log) && Enabled(Replay(log), last.change)
    ensures AllEnabled(log + [last])
  {
    hide Enabled, Replay;
    forall k | 0 <= k <= |log| ensures (log + [last])[..k] == log[..k] {
    }
    assert log[..|log|] == log;
  }

  lemma {:induction false} LogEnabled(e: Entity, events: seq<Event>)
    ensures AllEnabled(LogOf(e, events))
  {
    if events != [] {
      hide ApproveVerdict, Next, Enabled, AllEnabled;
      var before, last := events[..|events| - 1], events[|events| - 1];
      var s, log := Run(e, before), LogOf(e, before);
      LogEnabled(e, before);
      PipelineRefinesBook(e, before);
      if EntryOf(e, s, last) != [] {
        GrantedEnabled(e, s, last.at, last.step.sid, last.step.actor, last.step.sod, last.step.newId);
        OneMoreEnabled(log, EntryOf(e, s, last)[0]);
      } else {
        assert LogOf(e, events) == log;
      }
    }
  }

  /** Over every run: a golden record is deleted exactly when some granted change of it was a soft deletion. */
  lemma DeletedIff(e: Entity, events: seq<Event>, id: RecordId)
    requires id in Run(e, events).book.live
    ensures Run(e, events).book.live[id].deleted <==> EverMarked(LogOf(e, events), id)
  {
    hide Run, LogOf, Replay;
    PipelineRefinesBook(e, events);
    LogEnabled(e, events);
    DeletedByLog(LogOf(e, events), id);
  }

  /** A deletion of the log is an approved DELETE: its event approved a row with that operation and target. */
  lemma MarkedByApproval(e: Entity, s: State, ev: Event)
    requires EntryOf(e, s, ev) != [] && EntryOf(e, s, ev)[0].change.SoftDelete?
    ensures ev.step.DoApprove? && ev.step.sid < |s.staging|
    ensures s.staging[ev.step.sid].op.OpDelete? && s.staging[ev.step.sid].target == Some(EntryOf(e, s, ev)[0].change.id)
  {
    hide Acceptable, BySelf, SetsOf;
  }

  // ---------------------------------------------------------------- rejection

  /** A rejection that goes through marks the row rejected, with reviewer, time and reason, and changes nothing else. */
  lemma RejectionMeans(s: State, now: Time, sid: nat, actor: string, reason: string)
    requires sid < |s.staging| && s.staging[sid].status != Applied
    ensures var t := Reject(s, now, sid, actor, reason);
      && t.landing == s.landing && t.batches == s.batches && t.book == s.book && |t.staging| == |s.staging|
      && (forall i :: 0 <= i < |s.staging| && i != sid ==> t.staging[i] == s.staging[i])
      && var before, after := s.staging[sid], t.staging[sid];
      && after.status == Rejected && after.reviewedBy == Some(actor) && after.reviewedAt == Some(now)
      && after.note == Some(reason)
      && after.landingId == before.landingId && after.op == before.op && after.target == before.target
      && after.matchKey == before.matchKey && after.source == before.source && after.batch == before.batch
      && after.faults == before.faults && after.isValid == before.isValid && after.changeType == before.changeType
      && after.submittedBy == before.submittedBy && after.submittedAt == before.submittedAt
      && after.editedBy == before.editedBy && after.editedAt == before.editedAt
      && after.supplied == before.supplied && after.values == before.values
  {
  }

  /** Any other rejection changes nothing. */
  lemma NotRejectedMeans(s: State, now: Time, sid: nat, actor: string, reason: string)
    requires sid >= |s.staging| || s.staging[sid].status == Applied
    ensures Reject(s, now, sid, actor, reason) == s
  {
  }

  /** A rejected row cannot be approved. */
  lemma RejectedNotApproved(e: Entity, s: State, now: Time, sid: nat, actor: string, reason: string,
                            at: Time, approver: string, sod: bool, newId: RecordId)
    requires sid < |s.staging|
    ensures ApproveVerdict(e, Reject(s, now, sid, actor, reason), at, sid, approver, sod, newId)
         == Refused(AlreadyDecided)
  {
  }

  /** The i-th event of the run is an edit of the row that went through. */
  predicate EditedAt(e: Entity, events: seq<Event>, i: nat, sid: nat) {
    i < |events| && events[i].step.DoEdit? && events[i].step.sid == sid
    && EditVerdict(e, Run(e, events[..i]), events[i].at, sid, events[i].step.updates, events[i].step.actor).Edited?
  }

  /** Whatever happens to a rejected row but an edit that goes through, it stays rejected. */
  lemma StaysRejected(e: Entity, s: State, ev: Event, sid: nat)
    requires sid < |s.staging| && s.staging[sid].status == Rejected
    requires ev.step.DoEdit? && ev.step.sid == sid ==>
      !EditVerdict(e, s, ev.at, sid, ev.step.updates, ev.step.actor).Edited?
    ensures sid < |Next(e, s, ev).staging| && Next(e, s, ev).staging[sid].status == Rejected
  {
    hide Validated, ChangeFor, Apply, Stageable, PromoteRows, PendingRows, EditedRow, Receive;
    if ev.step.DoPromote? {
      var rows := Take(PendingRows(s.landing, ev.step.ids), ev.step.limit);
      PromotionAppends(e, s, ev.at, rows, |s.batches|, ev.step.pick);
    }
  }

  /** Over every run, a row rejected at one point and applied at a later one was edited in between. */
  lemma {:induction false} AppliedAfterRejected(e: Entity, events: seq<Event>, n: nat, sid: nat)
    requires n <= |events| && sid < |Run(e, events[..n]).staging| && Run(e, events[..n]).staging[sid].status == Rejected
    ensures sid < |Run(e, events).staging|
    ensures Run(e, events).staging[sid].status != Rejected ==> exists i :: n <= i && EditedAt(e, events, i, sid)
    decreases |events|
  {
    hide Next, EditVerdict;
    if n == |events| {
      assert events[..n] == events;
    } else {
      var m := |events| - 1;
      var before, last := events[..m], events[m];
      assert before[..n] == events[..n];
      AppliedAfterRejected(e, before, n, sid);
      if i :| n <= i && EditedAt(e, before, i, sid) {
        assert before[..i] == events[..i];
        assert EditedAt(e, events, i, sid);
        StagingGrows(e, Run(e, before), last);
      } else if EditedAt(e, events, m, sid) {
        StagingGrows(e, Run(e, before), last);
      } else {
        StaysRejected(e, Run(e, before), last, sid);
      }
    }
  }

  lemma StagingGrows(e: Entity, s: State, ev: Event)
    ensures |s.staging| <= |Next(e, s, ev).staging|
  {
    hide ChangeFor, Apply, Stageable, PromoteRows, PendingRows, EditedRow, Receive;
    if ev.step.DoPromote? {
      var rows := Take(PendingRows(s.landing, ev.step.ids), ev.step.limit);
      PromotionAppends(e, s, ev.at, rows, |s.batches|, ev.step.pick);
    }
  }

  // ---------------------------------------------------------------- editing

  /**
   An edit that goes through returns the row to review under the editor's name and time. The merged
   columns are read and checked afresh; the edited fields count as supplied; all else stays.
   */
  lemma EditMeans(e: Entity, s: State, now: Time, sid: nat, updates: Row, actor: string)
    requires WellFormed(e) && RowsSound(e, s.staging)
    requires EditVerdict(e, s, now, sid, updates, actor).Edited?
    ensures sid < |s.staging| && s.staging[sid].status != Applied && updates.Keys <= Names(e.attributes)
    ensures var t, p := Edit(e, s, now, sid, updates, actor), e.platform;
      && t.landing == s.landing && t.batches == s.batches && t.book == s.book && |t.staging| == |s.staging|
      && (forall i :: 0 <= i < |s.staging| && i != sid ==> t.staging[i] == s.staging[i])
      && var before, after := s.staging[sid], t.staging[sid];
      && after.status == PendingReview && after.editedBy == Some(actor) && after.editedAt == Some(now)
      && after.supplied == before.supplied + updates.Keys && after.matchKey == MatchKey(e, after.values)
      && (forall a :: a in e.attributes ==>
            a.name in after.values && after.values[a.name] == Stored(p, a, before.values + updates))
      && (forall name :: name in after.values ==> name in Names(e.attributes))
      && (forall f :: f in after.faults <==>
            exists a :: a in e.attributes && f in Faults(p, a, before.values + updates))
      && (after.isValid <==> after.faults == {})
      && EditVerdict(e, s, now, sid, updates, actor) == Edited(after.faults)
      && after.landingId == before.landingId && after.op == before.op && after.target == before.target
      && after.source == before.source && after.batch == before.batch && after.changeType == before.changeType
      && after.submittedBy == before.submittedBy && after.submittedAt == before.submittedAt
      && after.reviewedBy == before.reviewedBy && after.reviewedAt == before.reviewedAt && after.note == before.note
  {
    hide Stageable, Validated, Stored, Faults, MatchKey, RequiredPresent, EditedRow;
    var r := s.staging[sid];
    assert RowSound(e, r);
    EditedColumns(e, r, now, updates, actor);
    EditedFaults(e, r, now, updates, actor);
    EditedKeeps(e, r, now, updates, actor);
  }

  lemma EditedKeeps(e: Entity, before: StagingRow, now: Time, updates: Row, actor: string)
    ensures var after := EditedRow(e, before, now, updates, actor);
      && after.status == PendingReview && after.editedBy == Some(actor) && after.editedAt == Some(now)
      && after.supplied == before.supplied + updates.Keys && (after.isValid <==> after.faults == {})
      && after.landingId == before.landingId && after.op == before.op && after.target == before.target
      && after.source == before.source && after.batch == before.batch && after.changeType == before.changeType
      && after.submittedBy == before.submittedBy && after.submittedAt == before.submittedAt
      && after.reviewedBy == before.reviewedBy && after.reviewedAt == before.reviewedAt && after.note == before.note
  {
    hide Validated, MatchKey;
  }

  /** A match key reads the key columns and nothing else. */
  lemma MatchKeyReads(e: Entity, u: Row, v: Row)
    requires forall a :: a in e.attributes ==> At(u, a.name) == At(v, a.name)
    ensures MatchKey(e, u) == MatchKey(e, v)
  {
    hide Component, Join, Selected, At;
    var keys := KeyAttributes(e);
    assert forall a :: a in keys ==> a in e.attributes;
    assert Components(u, keys) == Components(v, keys);
  }

  lemma EditedColumns(e: Entity, r: StagingRow, now: Time, updates: Row, actor: string)
    requires WellFormed(e) && r.values.Keys == Names(e.attributes) && updates.Keys <= Names(e.attributes)
    ensures var after, p := EditedRow(e, r, now, updates, actor), e.platform;
      && after.values.Keys == Names(e.attributes) && after.matchKey == MatchKey(e, after.values)
      && forall a :: a in e.attributes ==>
           a.name in after.values && after.values[a.name] == Stored(p, a, r.values + updates)
  {
    hide Validated, Stored, MatchKey;
    var merged, after := r.values + updates, EditedRow(e, r, now, updates, actor);
    var values := Validated(e, merged, Partial(r.op)).values;
    ValidatedClean(e, merged, Partial(r.op));
    forall a | a in e.attributes
      ensures a.name in values && values[a.name] == Stored(e.platform, a, merged)
      ensures At(after.values, a.name) == values[a.name]
    {
      assert a.name in merged;
      ValidatedColumn(e, merged, Partial(r.op), a);
    }
    MatchKeyReads(e, values, after.values);
  }

  lemma EditedFaults(e: Entity, r: StagingRow, now: Time, updates: Row, actor: string)
    requires WellFormed(e) && r.values.Keys == Names(e.attributes) && updates.Keys <= Names(e.attributes)
    ensures forall f :: f in EditedRow(e, r, now, updates, actor).faults <==>
      exists a :: a in e.attributes && f in Faults(e.platform, a, r.values + updates)
  {
    hide Validated, Faults, MatchKey;
    ValidatedFaults(e, r.values + updates, Partial(r.op));
    assert forall a :: a in e.attributes ==> a.name in r.values + updates;
  }
}
